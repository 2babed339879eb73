/** Enrichment of the tracked fleet with pages of the La Rochelle maritime
    museum (`check_page_MMR`) and with boat pictures
    (`get_image_from_page_link`). The web is reached through two oracles: a
    GET returning the final URL and status, and a scraper that fetches a
    museum page and reads the `src` of the picture inside its `figure.image`. */
module Enrichment {
  import opened Common
  import opened Fleet

  /** `PAGE_URL_TEMPLATE` without its `{0}` slot, which ends it. */
  const PageUrlPrefix: string :=
    "https://museemaritime.larochelle.fr/au-dela-de-la-visite/a-decouvrir-a-proximite/yatchs-classiques/"

  /** `TEMPLATE_IMG_URL_MT` around its `{0}` slot. */
  const MtImageUrlPrefix: string := "https://photos.marinetraffic.com/ais/showphoto.aspx?shipid="
  const MtImageUrlSuffix: string := "&size=thumb600"

  /** `DEFAULT_BOAT_IMG_URL`, the picture of a schooner's sail plan. */
  const DefaultBoatImgUrl: string :=
    "https://upload.wikimedia.org/wikipedia/commons/thumb/e/e1/Sail_plan_schooner.svg/1200px-Sail_plan_schooner.svg.png"

  /** The pause bounds between two requests, in milliseconds
      (`minTIME_SLEEP`, `maxTIME_SLEEP`, `newTIME_SLEEP_MAX`). */
  const MinTimeSleepMs: nat := 200
  const MaxTimeSleepMs: nat := 400
  const NewTimeSleepMaxMs: nat := 200

  /** `requests.get(url)`: `None` when the request raises. */
  type HttpGet = string -> Option<HttpResponse>

  /** GET a museum page and read the picture's `src`: `None` when the request
      raises or the page has no such element. */
  type Scraper = string -> Option<string>

  /** `str.lower` on one character, for the capitals of the Latin script:
      ASCII and Latin-1 (`A`..`Z`, `À`..`Þ` but `×`), `Ÿ`, and the pairs of
      Latin Extended-A (U+0100..U+017E) but `İ`, whose lower case is two
      characters long. */
  function LowerChar(c: char): char {
    var n := c as int;
    if 'A' <= c <= 'Z' || ('À' <= c <= 'Þ' && c != '×') then (n + 32) as char
    else if c == 'Ÿ' then 'ÿ'
    else if (0x100 <= n < 0x130 || 0x132 <= n < 0x138 || 0x14A <= n < 0x178) && n % 2 == 0 then (n + 1) as char
    else if (0x139 <= n < 0x149 || 0x179 <= n < 0x17F) && n % 2 == 1 then (n + 1) as char
    else c
  }

  /** `str.lower`: every character mapped on its own, and no capital left. */
  function Lower(s: string): (r: string)
    ensures |r| == |s|
    ensures forall i :: 0 <= i < |s| ==> r[i] == LowerChar(s[i])
    ensures forall i :: 0 <= i < |r| ==> LowerChar(r[i]) == r[i]
  {
    seq(|s|, i requires 0 <= i < |s| => LowerChar(s[i]))
  }

  /** `str.replace(old, new)` for single characters. */
  function ReplaceChar(s: string, from: char, to: char): (r: string)
    ensures |r| == |s|
    ensures forall i :: 0 <= i < |s| ==> r[i] == if s[i] == from then to else s[i]
  {
    seq(|s|, i requires 0 <= i < |s| => if s[i] == from then to else s[i])
  }

  /** The page name of a boat: lower case, spaces turned into dashes. */
  function Slug(name: string): (r: string)
    ensures |r| == |name|
    ensures forall i :: 0 <= i < |r| ==> r[i] != ' '
  {
    ReplaceChar(Lower(name), ' ', '-')
  }

  /** A slug is its own slug: a museum page name is stable under the mapping. */
  lemma SlugIdempotent(name: string)
    ensures Slug(Slug(name)) == Slug(name)
  {
    var s := Slug(name);
    forall i | 0 <= i < |s| ensures Slug(s)[i] == s[i] {
      assert LowerChar(LowerChar(name[i])) == LowerChar(name[i]);
    }
  }

  /** Two names that differ only by capitals and spaces versus dashes lead to the same page. */
  lemma SlugIgnoresCaseAndSpaces(name: string)
    ensures Slug(Lower(name)) == Slug(name)
    ensures Slug(ReplaceChar(name, ' ', '-')) == Slug(name)
  {
    var a := Slug(Lower(name));
    forall i | 0 <= i < |name| ensures a[i] == Slug(name)[i] {
      assert LowerChar(LowerChar(name[i])) == LowerChar(name[i]);
    }
  }

  /** The museum address `check_page_MMR` requests for a boat name. */
  function PageUrl(name: string): string {
    PageUrlPrefix + Slug(name)
  }

  /** One probe of the museum site for a boat: the final URL when the page
      answers 200; missing when it answers otherwise, when the request
      raises, or when the boat has no name (`.lower()` on NaN raises). */
  function ProbePage(name: Option<string>, get: HttpGet): (link: Cell)
    ensures link.Some? <==>
      name.Some? && get(PageUrl(name.value)).Some? && get(PageUrl(name.value)).value.status == 200
    ensures link.Some? ==> link.value == get(PageUrl(name.value)).value.url
  {
    if name.None? then None
    else
      match get(PageUrl(name.value))
      case None => None
      case Some(resp) => if resp.status == 200 then Some(resp.url) else None
  }

  /** The `PAGE_LINK` column of a complete check: one probe per row. */
  function CompletePageLinks(t: Table, get: HttpGet): (links: seq<Cell>)
    ensures |links| == |t|
    decreases |t|
  {
    if |t| == 0 then [] else CompletePageLinks(t[..|t| - 1], get) + [ProbePage(t[|t| - 1].name, get)]
  }

  lemma {:induction false} CompletePageLinksAt(t: Table, get: HttpGet, i: int)
    requires 0 <= i < |t|
    ensures CompletePageLinks(t, get)[i] == ProbePage(t[i].name, get)
    decreases |t|
  {
    if i < |t| - 1 {
      CompletePageLinksAt(t[..|t| - 1], get, i);
    }
  }

  /** The link a partial check gives one row, against the rows of a loaded
      save: a boat the save knows keeps the save's first link for its MMSI,
      even a missing one, and the site is not asked again; any other boat is
      probed. */
  function PartialPageLink(v: Vessel, saved: Table, get: HttpGet): (link: Cell)
    ensures v.mmsi in MmsiSet(saved) ==> link == FirstWithMmsi(saved, v.mmsi).value.page
    ensures v.mmsi !in MmsiSet(saved) ==> link == ProbePage(v.name, get)
  {
    match FirstWithMmsi(saved, v.mmsi)
    case Some(w) => w.page
    case None => ProbePage(v.name, get)
  }

  /** A boat already in the save gets the same link whatever the site answers. */
  lemma PartialLinkIgnoresSite(v: Vessel, saved: Table, get1: HttpGet, get2: HttpGet)
    requires v.mmsi in MmsiSet(saved)
    ensures PartialPageLink(v, saved, get1) == PartialPageLink(v, saved, get2)
  {
  }

  function PartialPageLinks(t: Table, saved: Table, get: HttpGet): (links: seq<Cell>)
    ensures |links| == |t|
    decreases |t|
  {
    if |t| == 0 then [] else PartialPageLinks(t[..|t| - 1], saved, get) + [PartialPageLink(t[|t| - 1], saved, get)]
  }

  /** The positions of the rows whose MMSI the save lists. */
  function KnownRows(t: Table, saved: Table): set<nat> {
    set i: nat | i < |t| && t[i].mmsi in MmsiSet(saved)
  }

  /** `skip_count`: the rows whose MMSI the save already lists. */
  function SkipCount(t: Table, saved: Table): (n: nat)
    ensures n == |KnownRows(t, saved)|
    ensures n <= |t|
    ensures n == 0 <==> forall i :: 0 <= i < |t| ==> t[i].mmsi !in MmsiSet(saved)
    decreases |t|
  {
    if |t| == 0 then
      assert KnownRows(t, saved) == {};
      0
    else
      var n := |t| - 1;
      var k := SkipCount(t[..n], saved);
      assert forall i :: 0 <= i < n ==> t[..n][i] == t[i];
      KnownRowsSnoc(t, saved);
      k + if t[n].mmsi in MmsiSet(saved) then 1 else 0
  }

  lemma KnownRowsSnoc(t: Table, saved: Table)
    requires |t| > 0
    ensures var n := |t| - 1;
      KnownRows(t, saved) == KnownRows(t[..n], saved) + (if t[n].mmsi in MmsiSet(saved) then {n} else {})
      && n !in KnownRows(t[..n], saved)
  {
    var n := |t| - 1;
    assert forall i :: 0 <= i < n ==> t[..n][i] == t[i];
  }

  lemma {:induction false} PartialPageLinksAt(t: Table, saved: Table, get: HttpGet, i: int)
    requires 0 <= i < |t|
    ensures PartialPageLinks(t, saved, get)[i] == PartialPageLink(t[i], saved, get)
    decreases |t|
  {
    if i < |t| - 1 {
      PartialPageLinksAt(t[..|t| - 1], saved, get, i);
    }
  }

  lemma {:induction false} SkipCountOfSavedFleet(t: Table, saved: Table)
    requires forall i :: 0 <= i < |t| ==> t[i].mmsi in MmsiSet(saved)
    ensures SkipCount(t, saved) == |t|
    decreases |t|
  {
    if |t| > 0 {
      var n := |t| - 1;
      assert forall i :: 0 <= i < n ==> t[..n][i] == t[i];
      SkipCountOfSavedFleet(t[..n], saved);
    }
  }

  /** When the save holds the whole fleet, a partial check skips every boat
      and gives each its saved link back. */
  lemma PartialPageLinksOfSavedFleet(t: Table, saved: Table, get: HttpGet)
    requires forall i :: 0 <= i < |t| ==> t[i].mmsi in MmsiSet(saved)
    ensures SkipCount(t, saved) == |t|
    ensures forall i :: 0 <= i < |t| ==>
      PartialPageLinks(t, saved, get)[i] == FirstWithMmsi(saved, t[i].mmsi).value.page
  {
    SkipCountOfSavedFleet(t, saved);
    forall i | 0 <= i < |t|
      ensures PartialPageLinks(t, saved, get)[i] == FirstWithMmsi(saved, t[i].mmsi).value.page
    {
      PartialPageLinksAt(t, saved, get, i);
    }
  }

  /** The address of a ship's thumbnail on MarineTraffic; a missing
      `SHIP_ID` is formatted as `nan`. */
  function MtImageUrl(shipId: Cell): string {
    MtImageUrlPrefix + (if shipId.None? then "nan" else shipId.value) + MtImageUrlSuffix
  }

  /** `get_image_from_page_link` of packages/db.py: without a museum page,
      the MarineTraffic thumbnail when it answers 200; with one, the scraped
      picture; the default picture whenever that fails. */
  function ImageFromPage(page: Cell, shipId: Cell, get: HttpGet, scrape: Scraper): (url: string)
    ensures page.Some? && scrape(page.value).Some? ==> url == scrape(page.value).value
    ensures page.Some? && scrape(page.value).None? ==> url == DefaultBoatImgUrl
    ensures page.None? ==>
      var resp := get(MtImageUrl(shipId));
      url == if resp.Some? && resp.value.status == 200 then resp.value.url else DefaultBoatImgUrl
  {
    if page.None? then
      match get(MtImageUrl(shipId))
      case Some(resp) => if resp.status == 200 then resp.url else DefaultBoatImgUrl
      case None => DefaultBoatImgUrl
    else
      match scrape(page.value)
      case Some(src) => src
      case None => DefaultBoatImgUrl
  }

  /** A boat with a museum page never gets a MarineTraffic picture, and its
      `SHIP_ID` plays no part. */
  lemma MuseumPageOverridesMarineTraffic(page: string, s1: Cell, s2: Cell, get1: HttpGet, get2: HttpGet, scrape: Scraper)
    ensures ImageFromPage(Some(page), s1, get1, scrape) == ImageFromPage(Some(page), s2, get2, scrape)
  {
  }

  /** `get_image_from_page_link` of tracker_tools.py: the MarineTraffic branch
      reads a template its server class does not define, and the exception
      that raises is caught, so a boat without a museum page always gets the
      default picture. */
  function TrackerImageFromPage(page: Cell, scrape: Scraper): (url: string)
    ensures page.None? ==> url == DefaultBoatImgUrl
    ensures page.Some? ==> url == (if scrape(page.value).Some? then scrape(page.value).value else DefaultBoatImgUrl)
  {
    if page.None? then DefaultBoatImgUrl
    else
      match scrape(page.value)
      case Some(src) => src
      case None => DefaultBoatImgUrl
  }

  /** Both versions agree on boats that have a museum page. */
  lemma ImageVersionsAgreeOnMuseumPages(page: string, shipId: Cell, get: HttpGet, scrape: Scraper)
    ensures ImageFromPage(Some(page), shipId, get, scrape) == TrackerImageFromPage(Some(page), scrape)
  {
  }

  /** The `IMAGE_URL` column built by `request_image_links` of packages/db.py. */
  function ImageLinks(t: Table, get: HttpGet, scrape: Scraper): (urls: seq<string>)
    ensures |urls| == |t|
    decreases |t|
  {
    if |t| == 0 then []
    else ImageLinks(t[..|t| - 1], get, scrape) + [ImageFromPage(t[|t| - 1].page, t[|t| - 1].tel.shipId, get, scrape)]
  }

  /** Row `i` gets the picture the fallback chain picks from its own page and ship id. */
  lemma {:induction false} ImageLinksAt(t: Table, get: HttpGet, scrape: Scraper, i: int)
    requires 0 <= i < |t|
    ensures ImageLinks(t, get, scrape)[i] == ImageFromPage(t[i].page, t[i].tel.shipId, get, scrape)
    decreases |t|
  {
    if i < |t| - 1 {
      ImageLinksAt(t[..|t| - 1], get, scrape, i);
    }
  }

  /** The `IMAGE_URL` column built by `request_image_links` of tracker_tools.py. */
  function TrackerImageLinks(t: Table, scrape: Scraper): (urls: seq<string>)
    ensures |urls| == |t|
    decreases |t|
  {
    if |t| == 0 then []
    else TrackerImageLinks(t[..|t| - 1], scrape) + [TrackerImageFromPage(t[|t| - 1].page, scrape)]
  }

  /** Copies a column of cells into `PAGE_LINK`, row by row. */
  function WithPages(t: Table, links: seq<Cell>): (r: Table)
    requires |links| == |t|
    ensures |r| == |t|
    ensures forall i :: 0 <= i < |t| ==> r[i] == t[i].(page := links[i])
  {
    seq(|t|, i requires 0 <= i < |t| => t[i].(page := links[i]))
  }

  /** Copies a column of URLs into `IMAGE_URL`, row by row. */
  function WithImages(t: Table, urls: seq<string>): (r: Table)
    requires |urls| == |t|
    ensures |r| == |t|
    ensures forall i :: 0 <= i < |t| ==> r[i] == t[i].(image := Some(urls[i]))
  {
    seq(|t|, i requires 0 <= i < |t| => t[i].(image := Some(urls[i])))
  }
}
