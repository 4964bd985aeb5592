/**
 * The run of the scraper (`main`): page through the listing search until a page
 * comes back empty, keep the listings posted in July 2025, enrich each kept
 * listing with the description from its overview, and count what was seen.
 *
 * The network is abstract: `pages[i]` is what `fetch_list(i + 1)` returns (pages
 * past the end of the sequence are empty), and `overviewOf(id)` is what
 * `fetch_overview(id)` returns for a non-empty job id.
 */
module Pipeline {
  import opened Payload
  import opened DateWindow
  import opened Description

  /** One search result, as the fields `main` reads from it. A missing job id is "". */
  datatype Listing = Listing(
    jobId: string,
    jobPosition: Option<string>,
    companyName: Option<string>,
    companyProfile: Option<string>,
    jobLocation: Option<string>,
    jobLink: Option<string>,
    jobPostingDate: Option<string>)

  /** One output row: the listing's fields plus the extracted description. */
  datatype Record = Record(
    jobId: string,
    jobPosition: Option<string>,
    companyName: Option<string>,
    companyProfile: Option<string>,
    jobLocation: Option<string>,
    jobLink: Option<string>,
    jobPostingDate: Option<string>,
    description: string)

  /** `fetch_list(i + 1)`: the i-th page, or an empty page past the end of `pages`. */
  function PageAt(pages: seq<seq<Listing>>, i: nat): seq<Listing>
  {
    if i < |pages| then pages[i] else []
  }

  /** The listings of `pages`, page after page. */
  function Flatten(pages: seq<seq<Listing>>): (r: seq<Listing>)
  {
    if pages == [] then [] else Flatten(pages[..|pages| - 1]) + pages[|pages| - 1]
  }

  /** `fetch_overview(job_id)`: `{}` for an empty id, without any request. */
  function OverviewFor(l: Listing, overviewOf: string -> Json): (ov: Json)
    ensures l.jobId == "" ==> ov == EMPTY_OBJECT && !Truthy(ov)
    ensures Truthy(ov) ==> l.jobId != "" && ov == overviewOf(l.jobId)
  {
    if l.jobId == "" then EMPTY_OBJECT else overviewOf(l.jobId)
  }

  /** The row `main` appends for a listing in the window; `describe` extracts the description. */
  function Enrich(l: Listing, overviewOf: string -> Json, describe: Json -> string): (r: Record)
    ensures r.jobId == l.jobId && r.jobPosition == l.jobPosition && r.companyName == l.companyName
    ensures r.companyProfile == l.companyProfile && r.jobLocation == l.jobLocation && r.jobLink == l.jobLink
    ensures r.jobPostingDate == l.jobPostingDate
    ensures l.jobId == "" ==> r.description == describe(EMPTY_OBJECT)
  {
    Record(l.jobId, l.jobPosition, l.companyName, l.companyProfile, l.jobLocation, l.jobLink,
           l.jobPostingDate, describe(OverviewFor(l, overviewOf)))
  }

  predicate Kept(l: Listing, parse: string -> Option<Date>)
  {
    InJuly2025(l.jobPostingDate, parse)
  }

  /** The rows produced for `ls`, in encounter order. */
  function JulyRows(ls: seq<Listing>, parse: string -> Option<Date>, overviewOf: string -> Json, describe: Json -> string): (rows: seq<Record>)
    ensures |rows| == KeptCount(ls, parse)
  {
    if ls == [] then []
    else
      var last := ls[|ls| - 1];
      JulyRows(ls[..|ls| - 1], parse, overviewOf, describe) + (if Kept(last, parse) then [Enrich(last, overviewOf, describe)] else [])
  }

  /** The number of listings of `ls` in the window. */
  function KeptCount(ls: seq<Listing>, parse: string -> Option<Date>): (n: nat)
    ensures n <= |ls|
  {
    if ls == [] then 0
    else KeptCount(ls[..|ls| - 1], parse) + (if Kept(ls[|ls| - 1], parse) then 1 else 0)
  }

  /** `overviews_fetched`: listings in the window whose overview is not empty (truthy). */
  function OverviewCount(ls: seq<Listing>, parse: string -> Option<Date>, overviewOf: string -> Json): (n: nat)
    ensures n <= KeptCount(ls, parse)
  {
    if ls == [] then 0
    else
      var last := ls[|ls| - 1];
      OverviewCount(ls[..|ls| - 1], parse, overviewOf) +
        (if Kept(last, parse) && Truthy(OverviewFor(last, overviewOf)) then 1 else 0)
  }

  // ---------------------------------------------------------------------------
  // Properties of the rows

  /** Every row is for a listing posted in the window. */
  lemma {:induction false} JulyRowsInWindow(ls: seq<Listing>, parse: string -> Option<Date>, overviewOf: string -> Json,
                                            describe: Json -> string)
    ensures forall r :: r in JulyRows(ls, parse, overviewOf, describe) ==> InJuly2025(r.jobPostingDate, parse)
  {
    if ls != [] {
      JulyRowsInWindow(ls[..|ls| - 1], parse, overviewOf, describe);
    }
  }

  /** The rows of two runs of listings one after the other are the rows of each, concatenated. */
  lemma {:induction false} JulyRowsAppend(a: seq<Listing>, b: seq<Listing>, parse: string -> Option<Date>,
                                          overviewOf: string -> Json, describe: Json -> string)
    ensures JulyRows(a + b, parse, overviewOf, describe) == JulyRows(a, parse, overviewOf, describe) + JulyRows(b, parse, overviewOf, describe)
    ensures KeptCount(a + b, parse) == KeptCount(a, parse) + KeptCount(b, parse)
  {
    if b != [] {
      assert (a + b)[..|a + b| - 1] == a + b[..|b| - 1];
      JulyRowsAppend(a, b[..|b| - 1], parse, overviewOf, describe);
    } else {
      assert a + b == a;
    }
  }

  /**
   * Encounter order: a listing in the window at position i produces the row at
   * position KeptCount(ls[..i]), the number of kept listings before it.
   */
  lemma {:induction false} JulyRowAt(ls: seq<Listing>, i: nat, parse: string -> Option<Date>,
                                     overviewOf: string -> Json, describe: Json -> string)
    requires i < |ls| && Kept(ls[i], parse)
    ensures KeptCount(ls[..i], parse) < |JulyRows(ls, parse, overviewOf, describe)|
    ensures JulyRows(ls, parse, overviewOf, describe)[KeptCount(ls[..i], parse)] == Enrich(ls[i], overviewOf, describe)
  {
    assert ls == ls[..i] + ([ls[i]] + ls[i + 1..]);
    JulyRowsAppend(ls[..i], [ls[i]] + ls[i + 1..], parse, overviewOf, describe);
    JulyRowsAppend([ls[i]], ls[i + 1..], parse, overviewOf, describe);
    assert [ls[i]][..0] == [];
  }

  /** Rows of earlier kept listings come strictly before rows of later ones. */
  lemma {:induction false} KeptCountIncreases(ls: seq<Listing>, i: nat, j: nat, parse: string -> Option<Date>)
    requires i < j <= |ls| && Kept(ls[i], parse)
    ensures KeptCount(ls[..i], parse) < KeptCount(ls[..j], parse)
  {
    assert ls[..j] == ls[..i] + ls[i..j];
    JulyRowsAppend(ls[..i], ls[i..j], parse, s => EMPTY_OBJECT, j => "");
    assert ls[i..j] == [ls[i]] + ls[i + 1..j];
    JulyRowsAppend([ls[i]], ls[i + 1..j], parse, s => EMPTY_OBJECT, j => "");
    assert [ls[i]][..0] == [];
  }

  /** The lemma JulyRowsAppend's counterpart for the overview counter. */
  lemma {:induction false} OverviewCountAppend(a: seq<Listing>, b: seq<Listing>, parse: string -> Option<Date>,
                                               overviewOf: string -> Json)
    ensures OverviewCount(a + b, parse, overviewOf) == OverviewCount(a, parse, overviewOf) + OverviewCount(b, parse, overviewOf)
  {
    if b != [] {
      assert (a + b)[..|a + b| - 1] == a + b[..|b| - 1];
      OverviewCountAppend(a, b[..|b| - 1], parse, overviewOf);
    } else {
      assert a + b == a;
    }
  }

  /** The pages up to page k + 1 hold the listings up to page k and then those of page k + 1. */
  lemma FlattenNext(pages: seq<seq<Listing>>, k: nat)
    requires k < |pages|
    ensures Flatten(pages[..k + 1]) == Flatten(pages[..k]) + pages[k]
  {
    assert pages[..k + 1][..k] == pages[..k];
  }

  /** Rows and counters of a prefix of `ls` extended by one more listing. */
  lemma NextListing(ls: seq<Listing>, i: nat, parse: string -> Option<Date>, overviewOf: string -> Json,
                    describe: Json -> string)
    requires i < |ls|
    ensures JulyRows(ls[..i + 1], parse, overviewOf, describe) ==
              JulyRows(ls[..i], parse, overviewOf, describe) +
              (if Kept(ls[i], parse) then [Enrich(ls[i], overviewOf, describe)] else [])
    ensures KeptCount(ls[..i + 1], parse) == KeptCount(ls[..i], parse) + (if Kept(ls[i], parse) then 1 else 0)
    ensures OverviewCount(ls[..i + 1], parse, overviewOf) ==
              OverviewCount(ls[..i], parse, overviewOf) +
              (if Kept(ls[i], parse) && Truthy(OverviewFor(ls[i], overviewOf)) then 1 else 0)
  {
    assert ls[..i + 1][..i] == ls[..i];
  }

  /** The first n pages are all non-empty. */
  predicate FilledPages(pages: seq<seq<Listing>>, n: nat)
  {
    n <= |pages| && forall k :: 0 <= k < n ==> |pages[k]| > 0
  }

  /** One more non-empty page extends a run of non-empty pages. */
  lemma FilledPagesNext(pages: seq<seq<Listing>>, n: nat)
    requires FilledPages(pages, n) && n < |pages| && |pages[n]| > 0
    ensures FilledPages(pages, n + 1)
  {
  }

  // ---------------------------------------------------------------------------
  // The run

  /**
   * The body of `main`'s page loop: go through the listings of one page in order,
   * counting each, and for each one in the window fetch its overview, count it
   * when it is not empty, and append its row.
   */
  method ScanPage(rows: seq<Listing>, parse: string -> Option<Date>, overviewOf: string -> Json,
                  describe: Json -> string, julyRows0: seq<Record>, totalSeen0: nat, totalJuly0: nat, totalOverviews0: nat)
    returns (julyRows: seq<Record>, totalSeen: nat, totalJuly: nat, totalOverviews: nat)
    ensures julyRows == julyRows0 + JulyRows(rows, parse, overviewOf, describe)
    ensures totalSeen == totalSeen0 + |rows|
    ensures totalJuly == totalJuly0 + KeptCount(rows, parse)
    ensures totalOverviews == totalOverviews0 + OverviewCount(rows, parse, overviewOf)
  {
    julyRows, totalSeen, totalJuly, totalOverviews := julyRows0, totalSeen0, totalJuly0, totalOverviews0;
    var i := 0;
    while i < |rows|
      invariant 0 <= i <= |rows|
      invariant totalSeen == totalSeen0 + i
      invariant julyRows == julyRows0 + JulyRows(rows[..i], parse, overviewOf, describe)
      invariant totalJuly == totalJuly0 + KeptCount(rows[..i], parse)
      invariant totalOverviews == totalOverviews0 + OverviewCount(rows[..i], parse, overviewOf)
    {
      var j := rows[i];
      totalSeen := totalSeen + 1;
      NextListing(rows, i, parse, overviewOf, describe);
      if InJuly2025(j.jobPostingDate, parse) {
        var ov := OverviewFor(j, overviewOf);
        var desc := describe(ov);
        totalOverviews := totalOverviews + if Truthy(ov) then 1 else 0;
        julyRows := julyRows + [Record(j.jobId, j.jobPosition, j.companyName, j.companyProfile,
                                       j.jobLocation, j.jobLink, j.jobPostingDate, desc)];
        totalJuly := totalJuly + 1;
      }
      i := i + 1;
    }
    assert rows[..i] == rows;
  }

  /**
   * `main` up to the output files: requests pages 1, 2, ... until one is empty;
   * `page` is the number of that empty page.
   */
  method Run(pages: seq<seq<Listing>>, parse: string -> Option<Date>, overviewOf: string -> Json,
             describe: Json -> string)
    returns (julyRows: seq<Record>, totalSeen: nat, totalJuly: nat, totalOverviews: nat, page: nat)
    ensures 1 <= page <= |pages| + 1
    ensures PageAt(pages, page - 1) == [] && forall k :: 0 <= k < page - 1 ==> |pages[k]| > 0
    ensures totalSeen == |Flatten(pages[..page - 1])|
    ensures julyRows == JulyRows(Flatten(pages[..page - 1]), parse, overviewOf, describe)
    ensures totalJuly == |julyRows| == KeptCount(Flatten(pages[..page - 1]), parse)
    ensures totalOverviews == OverviewCount(Flatten(pages[..page - 1]), parse, overviewOf)
    ensures totalOverviews <= totalJuly
  {
    julyRows := [];
    page := 1;
    totalSeen, totalJuly, totalOverviews := 0, 0, 0;
    ghost var seen: seq<Listing> := [];
    while true
      invariant 1 <= page <= |pages| + 1
      invariant FilledPages(pages, page - 1)
      invariant seen == Flatten(pages[..page - 1])
      invariant totalSeen == |seen|
      invariant julyRows == JulyRows(seen, parse, overviewOf, describe)
      invariant totalJuly == KeptCount(seen, parse)
      invariant totalOverviews == OverviewCount(seen, parse, overviewOf)
      decreases |pages| + 1 - page
    {
      var rows := PageAt(pages, page - 1);
      if rows == [] {
        break;
      }
      assert page - 1 < |pages| && pages[page - 1] == rows;
      julyRows, totalSeen, totalJuly, totalOverviews :=
        ScanPage(rows, parse, overviewOf, describe, julyRows, totalSeen, totalJuly, totalOverviews);
      FlattenNext(pages, page - 1);
      JulyRowsAppend(seen, rows, parse, overviewOf, describe);
      OverviewCountAppend(seen, rows, parse, overviewOf);
      FilledPagesNext(pages, page - 1);
      seen := seen + rows;
      page := page + 1;
    }
  }

  /**
   * `main` with the description extractor of this model: the counters and rows
   * of Run, with every row's description given by ExtractDescription.
   */
  method Scrape(pages: seq<seq<Listing>>, parse: string -> Option<Date>, overviewOf: string -> Json)
    returns (julyRows: seq<Record>, totalSeen: nat, totalJuly: nat, totalOverviews: nat, page: nat)
    ensures 1 <= page <= |pages| + 1
    ensures PageAt(pages, page - 1) == [] && forall k :: 0 <= k < page - 1 ==> |pages[k]| > 0
    ensures totalSeen == |Flatten(pages[..page - 1])|
    ensures julyRows == JulyRows(Flatten(pages[..page - 1]), parse, overviewOf, ExtractDescription)
    ensures totalJuly == |julyRows| == KeptCount(Flatten(pages[..page - 1]), parse)
    ensures totalOverviews == OverviewCount(Flatten(pages[..page - 1]), parse, overviewOf)
    ensures totalOverviews <= totalJuly
  {
    julyRows, totalSeen, totalJuly, totalOverviews, page := Run(pages, parse, overviewOf, ExtractDescription);
  }

  /**
   * Two pages, the first with one listing dated 2025-07-15 and two dated
   * 2025-06-30, the second empty: three listings are seen, one row is kept, for
   * the July listing, and one overview is requested.
   */
  method JulyScenario(july: Listing, june1: Listing, june2: Listing,
                      parse: string -> Option<Date>, overviewOf: string -> Json, describe: Json -> string)
    returns (julyRows: seq<Record>, totalSeen: nat, totalJuly: nat, totalOverviews: nat, page: nat)
    requires july.jobPostingDate == Some("2025-07-15") && parse("2025-07-15") == Some(Date(2025, 7, 15))
    requires june1.jobPostingDate == Some("2025-06-30") && june2.jobPostingDate == Some("2025-06-30")
    requires parse("2025-06-30") == Some(Date(2025, 6, 30))
    ensures totalSeen == 3 && totalJuly == 1 && page == 2
    ensures julyRows == [Enrich(july, overviewOf, describe)]
    ensures totalOverviews == if Truthy(OverviewFor(july, overviewOf)) then 1 else 0
  {
    var pages := [[june1, july, june2], []];
    julyRows, totalSeen, totalJuly, totalOverviews, page := Run(pages, parse, overviewOf, describe);
    assert |pages[0]| > 0;
    assert page == 2;
    var ls := [june1, july, june2];
    assert pages[..1] == [ls];
    assert Flatten(pages[..1]) == ls by {
      assert Flatten([ls]) == Flatten([]) + ls;
    }
    assert ls[..2] == [june1, july] && ls[..2][..1] == [june1] && [june1][..0] == [];
    assert !Kept(june1, parse) && Kept(july, parse) && !Kept(june2, parse);
    assert KeptCount([june1], parse) == 0;
    assert KeptCount(ls[..2], parse) == 1;
    assert OverviewCount([june1], parse, overviewOf) == 0;
    assert OverviewCount(ls[..2], parse, overviewOf) == if Truthy(OverviewFor(july, overviewOf)) then 1 else 0;
  }
}
