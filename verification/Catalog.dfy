/**
 * The market catalog: every page of every category, each EPIC once, or an error. The server is any
 * function of category and page number; no page is asked for twice.
 */
module Catalog {
  import opened Errors
  import opened Wrappers

  const PAGE_SIZE: int := 500
  const MAX_PAGES: nat := 1_000

  /** A row of a page; `listing` stands for everything but the EPIC. */
  datatype Instrument = Instrument(epic: string, listing: int)

  datatype Metadata = Metadata(pageNumber: int, pageSize: int)

  datatype Page = Page(metadata: Option<Metadata>, instruments: seq<Instrument>)

  type Server = (string, nat) -> Result<Page, AppError>

  datatype Request = Request(code: string, page: nat)

  /** Unicode white space. */
  predicate IsWhiteSpace(c: char) {
    var u := c as int;
    || 0x09 <= u <= 0x0D || u == 0x20 || u == 0x85 || u == 0xA0 || u == 0x1680 || 0x2000 <= u <= 0x200A
    || u == 0x2028 || u == 0x2029 || u == 0x202F || u == 0x205F || u == 0x3000
  }

  predicate Blank(s: string) {
    forall i :: 0 <= i < |s| ==> IsWhiteSpace(s[i])
  }

  // ---- each EPIC once ------------------------------------------------------------------------

  function EpicsOf(rows: seq<Instrument>): (epics: set<string>)
    ensures forall e :: e in epics <==> exists i :: 0 <= i < |rows| && rows[i].epic == e
  {
    set i | 0 <= i < |rows| :: rows[i].epic
  }

  /** The first row of every EPIC, in order. */
  function FirstPerEpic(rows: seq<Instrument>): seq<Instrument> {
    if rows == [] then [] else
      var k := |rows| - 1;
      FirstPerEpic(rows[..k]) + (if rows[k].epic in EpicsOf(rows[..k]) then [] else [rows[k]])
  }

  /** Whether row `i` is the first one of its EPIC. */
  predicate IsFirst(rows: seq<Instrument>, i: nat) {
    i < |rows| && forall j :: 0 <= j < i ==> rows[j].epic != rows[i].epic
  }

  /** The rows that are kept stand in the order in which they were listed. */
  ghost predicate InOrder(rows: seq<Instrument>, kept: seq<Instrument>, at: seq<nat>) {
    && |at| == |kept| && (forall i :: 0 <= i < |at| ==> at[i] < |rows| && rows[at[i]] == kept[i])
    && forall i, j :: 0 <= i < j < |at| ==> at[i] < at[j]
  }

  lemma {:induction false} KeptInOrder(rows: seq<Instrument>) returns (at: seq<nat>)
    ensures InOrder(rows, FirstPerEpic(rows), at) && forall i :: 0 <= i < |at| ==> IsFirst(rows, at[i])
  {
    at := [];
    if rows != [] {
      var k := |rows| - 1;
      at := KeptInOrder(rows[..k]);
      if rows[k].epic !in EpicsOf(rows[..k]) {
        assert forall j :: 0 <= j < k ==> rows[..k][j] == rows[j];
        at := at + [k];
      }
    }
  }

  lemma EpicsSnoc(rows: seq<Instrument>, row: Instrument)
    ensures EpicsOf(rows + [row]) == EpicsOf(rows) + {row.epic}
  {
    var all := rows + [row];
    assert all[|rows|] == row && forall i :: 0 <= i < |rows| ==> all[i] == rows[i];
  }

  lemma FirstSnoc(rows: seq<Instrument>, row: Instrument)
    ensures FirstPerEpic(rows + [row]) == FirstPerEpic(rows) + (if row.epic in EpicsOf(rows) then [] else [row])
  {
    assert (rows + [row])[..|rows|] == rows;
  }

  predicate OneEach(rows: seq<Instrument>) {
    forall a, b :: 0 <= a < b < |rows| ==> rows[a].epic != rows[b].epic
  }

  /** No EPIC is lost and none appears twice. */
  lemma {:induction false} EachEpicOnce(rows: seq<Instrument>)
    ensures EpicsOf(FirstPerEpic(rows)) == EpicsOf(rows) && OneEach(FirstPerEpic(rows))
  {
    if rows != [] {
      var before, row := rows[..|rows| - 1], rows[|rows| - 1];
      assert rows == before + [row];
      EachEpicOnce(before);
      EpicsSnoc(before, row);
      FirstSnoc(before, row);
      EpicsSnoc(FirstPerEpic(before), row);
      if row.epic in EpicsOf(before) {
        assert FirstPerEpic(rows) == FirstPerEpic(before);
        assert EpicsOf(rows) == EpicsOf(before);
      }
    }
  }

  ghost predicate HasFirst(rows: seq<Instrument>, m: Instrument) {
    exists i: nat :: IsFirst(rows, i) && rows[i] == m
  }

  lemma HasFirstSnoc(rows: seq<Instrument>, row: Instrument, m: Instrument)
    ensures HasFirst(rows + [row], m) <==> HasFirst(rows, m) || (row == m && row.epic !in EpicsOf(rows))
  {
    var all := rows + [row];
    assert forall i: nat :: i < |rows| ==> all[i] == rows[i] && (IsFirst(all, i) <==> IsFirst(rows, i));
    assert IsFirst(all, |rows|) <==> row.epic !in EpicsOf(rows);
  }

  /** What appears is the first listing of its EPIC. */
  lemma {:induction false} FirstListingWins(rows: seq<Instrument>, m: Instrument)
    ensures m in FirstPerEpic(rows) <==> HasFirst(rows, m)
  {
    if rows != [] {
      var before, row := rows[..|rows| - 1], rows[|rows| - 1];
      assert rows == before + [row];
      FirstListingWins(before, m);
      FirstSnoc(before, row);
      HasFirstSnoc(before, row, m);
    }
  }

  // ---- a complete category -------------------------------------------------------------------

  /** A page that answers request number `n`. */
  predicate Answers(p: Page, n: nat) {
    && p.metadata.Some? && p.metadata.value.pageNumber == n
    && 1 <= p.metadata.value.pageSize <= 500
    && |p.instruments| <= p.metadata.value.pageSize
  }

  predicate SameSize(p: Page, q: Page) {
    p.metadata.Some? && q.metadata.Some? && p.metadata.value.pageSize == q.metadata.value.pageSize
  }

  predicate Listed(p: Page) {
    p.instruments != [] && forall i :: 0 <= i < |p.instruments| ==> !Blank(p.instruments[i].epic)
  }

  /** Pages 0, 1, 2, … as the server gives them: all of one size, none empty, none repeated. */
  ghost predicate Accepted(server: Server, code: string, pages: seq<Page>) {
    && (forall n :: 0 <= n < |pages| ==>
          server(code, n) == Ok(pages[n]) && Answers(pages[n], n) && Listed(pages[n]) && SameSize(pages[0], pages[n]))
    && (forall m, n :: 0 <= m < n < |pages| ==> EpicsOf(pages[m].instruments) != EpicsOf(pages[n].instruments))
  }

  /** The page that ends a category: validated like the others, and empty. */
  ghost predicate Ends(server: Server, code: string, pages: seq<Page>) {
    && |pages| < 1_000 && server(code, |pages|).Ok?
    && var last := server(code, |pages|).value;
       Answers(last, |pages|) && last.instruments == [] && (pages != [] ==> SameSize(pages[0], last))
  }

  ghost predicate CompleteListing(server: Server, code: string, pages: seq<Page>) {
    Accepted(server, code, pages) && Ends(server, code, pages)
  }

  lemma AcceptedAt(server: Server, code: string, pages: seq<Page>, n: nat)
    requires Accepted(server, code, pages) && n < |pages|
    ensures server(code, n) == Ok(pages[n]) && Answers(pages[n], n) && Listed(pages[n]) && SameSize(pages[0], pages[n])
  {
  }

  /** The server lists a category in one way at most. */
  lemma {:induction false} ListingIsUnique(server: Server, code: string, pages: seq<Page>, others: seq<Page>)
    requires Accepted(server, code, pages) && CompleteListing(server, code, others)
    ensures pages <= others
    ensures Ends(server, code, pages) ==> pages == others
  {
    assert |pages| <= |others|;
    forall n | 0 <= n < |pages|
      ensures pages[n] == others[n]
    {
      AcceptedAt(server, code, pages, n);
      AcceptedAt(server, code, others, n);
    }
    assert Ends(server, code, pages) ==> |pages| == |others|;
  }

  function Rows(pages: seq<Page>): seq<Instrument> {
    if pages == [] then [] else Rows(pages[..|pages| - 1]) + pages[|pages| - 1].instruments
  }

  /** The requests for the first `n` pages of a category. */
  function Asked(code: string, n: nat): (log: seq<Request>)
    ensures |log| == n && forall k :: 0 <= k < n ==> log[k] == Request(code, k)
  {
    seq(n, k requires 0 <= k => Request(code, k))
  }

  function Endpoint(code: string): string {
    "categories/" + code + "/instruments"
  }

  /** Validates a page's identity and size before its rows are accepted; the size is fixed by the first page. */
  method ValidateCategoryPage(code: string, n: nat, p: Page, size: Option<int>)
    returns (r: Result<(), AppError>, effective: Option<int>)
    ensures r.Ok? <==> Answers(p, n) && (size.Some? ==> p.metadata.value.pageSize == size.value)
    ensures effective == if r.Ok? then Some(p.metadata.value.pageSize) else size
    ensures r.Err? ==>
              && r.error.CatalogPagination? && r.error.categoryId == code && r.error.pageNumber == n
              && Faulty(p, n, size, r.error.fault)
  {
    effective := size;
    if p.metadata.None? {
      return Err(CatalogPagination(code, n, MetadataMissing)), size;
    }
    var metadata := p.metadata.value;
    if metadata.pageNumber != n {
      return Err(CatalogPagination(code, n, PageNumberMismatch)), size;
    }
    if !(1 <= metadata.pageSize <= PAGE_SIZE) {
      return Err(CatalogPagination(code, n, PageSizeOutOfRange)), size;
    }
    if size.Some? && size.value != metadata.pageSize {
      return Err(CatalogPagination(code, n, PageSizeChanged)), size;
    }
    if |p.instruments| > metadata.pageSize {
      return Err(CatalogPagination(code, n, TooManyInstruments)), size;
    }
    return Ok(()), Some(metadata.pageSize);
  }

  /** Adds the rows of one page, skipping EPICs already listed. */
  method AddRows(rows: seq<Instrument>, seen: set<string>, markets: seq<Instrument>, ghost before: seq<Instrument>)
    returns (seenEpics: set<string>, all: seq<Instrument>)
    requires seen == EpicsOf(before) && markets == FirstPerEpic(before)
    ensures seenEpics == EpicsOf(before + rows) && all == FirstPerEpic(before + rows)
  {
    seenEpics, all := seen, markets;
    assert before + rows[..0] == before;
    for i := 0 to |rows|
      invariant seenEpics == EpicsOf(before + rows[..i]) && all == FirstPerEpic(before + rows[..i])
    {
      EpicsSnoc(before + rows[..i], rows[i]);
      FirstSnoc(before + rows[..i], rows[i]);
      assert before + rows[..i + 1] == before + rows[..i] + [rows[i]];
      if rows[i].epic !in seenEpics {
        seenEpics := seenEpics + {rows[i].epic};
        all := all + [rows[i]];
      }
    }
    assert rows[..|rows|] == rows;
  }

  /** What is wrong with a page, given the size the first page fixed. */
  ghost predicate Faulty(p: Page, n: nat, size: Option<int>, fault: PageFault) {
    match fault
    case MetadataMissing => p.metadata.None?
    case PageNumberMismatch => p.metadata.Some? && p.metadata.value.pageNumber != n
    case PageSizeOutOfRange => p.metadata.Some? && !(1 <= p.metadata.value.pageSize <= 500)
    case PageSizeChanged => p.metadata.Some? && size.Some? && p.metadata.value.pageSize != size.value
    case TooManyInstruments => p.metadata.Some? && |p.instruments| > p.metadata.value.pageSize
    case _ => false
  }

  /** The server gives page `n`, and it is at fault. */
  ghost predicate GivesFaulty(server: Server, code: string, n: nat, size: Option<int>, fault: PageFault) {
    server(code, n).Ok? && Faulty(server(code, n).value, n, size, fault)
  }

  ghost predicate GivesBlankEpic(server: Server, code: string, n: nat) {
    server(code, n).Ok? && exists i :: 0 <= i < |server(code, n).value.instruments|
                                       && Blank(server(code, n).value.instruments[i].epic)
  }

  ghost predicate Repeats(server: Server, code: string, pages: seq<Page>) {
    && server(code, |pages|).Ok? && server(code, |pages|).value.instruments != []
    && exists n :: 0 <= n < |pages|
                   && EpicsOf(pages[n].instruments) == EpicsOf(server(code, |pages|).value.instruments)
  }

  /** What is wrong with the next page, or with there being another one. */
  ghost predicate BreaksOff(server: Server, code: string, pages: seq<Page>, fault: PageFault) {
    match fault
    case LimitReached => |pages| == 1_000
    case EpicEmpty => GivesBlankEpic(server, code, |pages|)
    case PageRepeated => Repeats(server, code, pages)
    case _ => GivesFaulty(server, code, |pages|, SizeOf(pages), fault)
  }

  function SizeOf(pages: seq<Page>): Option<int> {
    if pages != [] && pages[0].metadata.Some? then Some(pages[0].metadata.value.pageSize) else None
  }

  /** What an error of a category says is true: behind the pages before it, that request or its answer failed. */
  ghost predicate Blames(server: Server, code: string, e: AppError) {
    exists pages :: Accepted(server, code, pages) && BlamesAfter(server, code, pages, e)
  }

  ghost predicate BlamesAfter(server: Server, code: string, pages: seq<Page>, e: AppError) {
    match e
    case CatalogRequest(endpoint, page, source) =>
      endpoint == Endpoint(code) && page == |pages| && server(code, page) == Err(source)
    case CatalogPagination(id, page, fault) =>
      id == code && page == |pages| && BreaksOff(server, code, pages, fault)
    case _ => false
  }

  /** Another request for a category gave a page that cannot be accepted: then no listing is complete. */
  lemma {:induction false} Broken(server: Server, code: string, pages: seq<Page>)
    requires Accepted(server, code, pages)
    requires server(code, |pages|).Ok? ==>
               var p := server(code, |pages|).value;
               !Answers(p, |pages|) || (pages != [] && !SameSize(pages[0], p))
               || (p.instruments != [] && !Accepted(server, code, pages + [p]))
    ensures forall others :: !CompleteListing(server, code, others)
  {
    forall others | CompleteListing(server, code, others)
      ensures false
    {
      ListingIsUnique(server, code, pages, others);
    }
  }

  lemma {:induction false} TooLong(server: Server, code: string, pages: seq<Page>)
    requires Accepted(server, code, pages) && |pages| >= MAX_PAGES
    ensures forall others :: !CompleteListing(server, code, others)
  {
    forall others | CompleteListing(server, code, others)
      ensures false
    {
      ListingIsUnique(server, code, pages, others);
    }
  }

  /** A category that is blamed truthfully has no complete listing. */
  lemma Blamed(server: Server, code: string, pages: seq<Page>, e: AppError)
    requires Accepted(server, code, pages) && BlamesAfter(server, code, pages, e)
    ensures Blames(server, code, e) && forall others :: !CompleteListing(server, code, others)
  {
    if e.CatalogPagination? && e.fault == LimitReached {
      TooLong(server, code, pages);
    } else {
      if server(code, |pages|).Ok? {
        var p := server(code, |pages|).value;
        assert (pages + [p])[|pages|] == p && forall n :: 0 <= n < |pages| ==> (pages + [p])[n] == pages[n];
      }
      Broken(server, code, pages);
    }
  }

  /** An acceptable page extends the listing exactly when its set of EPICs is new. */
  lemma {:induction false} AcceptedSnoc(
    server: Server, code: string, pages: seq<Page>, p: Page, seenPages: set<set<string>>)
    requires Accepted(server, code, pages) && server(code, |pages|) == Ok(p)
    requires SeenPages(seenPages, pages)
    requires Answers(p, |pages|) && (pages != [] ==> SameSize(pages[0], p))
    ensures Listed(p) && EpicsOf(p.instruments) !in seenPages <==> Accepted(server, code, pages + [p])
  {
    var all := pages + [p];
    assert all[|pages|] == p && forall n :: 0 <= n < |pages| ==> all[n] == pages[n];
  }

  ghost predicate SeenPages(seenPages: set<set<string>>, pages: seq<Page>) {
    forall epics :: epics in seenPages <==> exists n :: 0 <= n < |pages| && EpicsOf(pages[n].instruments) == epics
  }

  lemma SeenSnoc(seenPages: set<set<string>>, pages: seq<Page>, p: Page)
    requires SeenPages(seenPages, pages)
    ensures SeenPages(seenPages + {EpicsOf(p.instruments)}, pages + [p])
  {
    var all := pages + [p];
    assert all[|pages|] == p && forall n :: 0 <= n < |pages| ==> all[n] == pages[n];
  }

  lemma RowsSnoc(before: seq<Instrument>, pages: seq<Page>, p: Page)
    ensures before + Rows(pages + [p]) == before + Rows(pages) + p.instruments
  {
    assert (pages + [p])[..|pages|] == pages;
  }

  lemma NothingAccepted(server: Server, code: string)
    ensures Accepted(server, code, []) && Rows([]) == []
  {
  }

  lemma Completed(server: Server, code: string, pages: seq<Page>)
    requires Accepted(server, code, pages) && Ends(server, code, pages)
    ensures CompleteListing(server, code, pages)
  {
  }

  /** Lists one category page by page until a validated empty page. */
  method EnumerateCategory(
    server: Server, code: string, seen: set<string>, markets: seq<Instrument>, ghost before: seq<Instrument>)
    returns (r: Result<(), AppError>, seenEpics: set<string>, all: seq<Instrument>,
             ghost pages: seq<Page>, ghost asked: nat)
    requires seen == EpicsOf(before) && markets == FirstPerEpic(before)
    ensures r.Ok? ==>
              && CompleteListing(server, code, pages)
              && seenEpics == EpicsOf(before + Rows(pages)) && all == FirstPerEpic(before + Rows(pages))
    ensures r.Err? ==> Blames(server, code, r.error) && forall others :: !CompleteListing(server, code, others)
    ensures asked <= MAX_PAGES
  {
    hide Accepted, Blames, CompleteListing, EpicsOf, Rows, FirstPerEpic, Faulty;
    NothingAccepted(server, code);
    var n: nat, effective: Option<int>, seenPages: set<set<string>> := 0, None, {};
    seenEpics, all, pages, asked := seen, markets, [], 0;
    assert before + Rows([]) == before;
    while true
      invariant n == |pages| == asked < MAX_PAGES
      invariant Accepted(server, code, pages) && SeenPages(seenPages, pages)
      invariant effective == SizeOf(pages) && (pages != [] ==> effective.Some?)
      invariant seenEpics == EpicsOf(before + Rows(pages)) && all == FirstPerEpic(before + Rows(pages))
      decreases MAX_PAGES - n
    {
      asked := asked + 1;
      var response := server(code, n);
      if response.Err? {
        r := Err(CatalogRequest(Endpoint(code), n, response.error));
        Blamed(server, code, pages, r.error);
        return;
      }
      var p := response.value;
      var valid;
      valid, effective := ValidateCategoryPage(code, n, p, effective);
      if valid.Err? {
        Blamed(server, code, pages, valid.error);
        return valid, seenEpics, all, pages, asked;
      }
      if p.instruments == [] {
        Completed(server, code, pages);
        return Ok(()), seenEpics, all, pages, asked;
      }
      AcceptedSnoc(server, code, pages, p, seenPages);
      if exists i :: 0 <= i < |p.instruments| && Blank(p.instruments[i].epic) {
        r := Err(CatalogPagination(code, n, EpicEmpty));
        Blamed(server, code, pages, r.error);
        return;
      }
      var pageEpics := EpicsOf(p.instruments);
      if pageEpics in seenPages {
        r := Err(CatalogPagination(code, n, PageRepeated));
        Blamed(server, code, pages, r.error);
        return;
      }
      SeenSnoc(seenPages, pages, p);
      seenPages := seenPages + {pageEpics};
      RowsSnoc(before, pages, p);
      seenEpics, all := AddRows(p.instruments, seenEpics, all, before + Rows(pages));
      pages := pages + [p];
      n := n + 1;
      if n >= MAX_PAGES {
        r := Err(CatalogPagination(code, n, LimitReached));
        Blamed(server, code, pages, r.error);
        return;
      }
    }
  }

  // ---- the whole catalog ---------------------------------------------------------------------

  /** The categories in order, each once. */
  function FirstCodes(codes: seq<string>): (firsts: seq<string>)
    ensures forall c :: c in firsts <==> c in codes
    ensures forall i, j :: 0 <= i < j < |firsts| ==> firsts[i] != firsts[j]
  {
    if codes == [] then [] else
      var k := |codes| - 1;
      assert codes == codes[..k] + [codes[k]];
      FirstCodes(codes[..k]) + (if codes[k] in codes[..k] then [] else [codes[k]])
  }

  /** All rows of all categories, in order. */
  ghost function CatalogRows(codes: seq<string>, listings: map<string, seq<Page>>): seq<Instrument> {
    if codes == [] then [] else
      var last := codes[|codes| - 1];
      CatalogRows(codes[..|codes| - 1], listings) + (if last in listings then Rows(listings[last]) else [])
  }

  ghost predicate Listable(server: Server, code: string) {
    !Blank(code) && exists pages :: CompleteListing(server, code, pages)
  }

  ghost predicate AllListed(server: Server, codes: seq<string>, listings: map<string, seq<Page>>) {
    forall c :: c in codes ==> !Blank(c) && c in listings && CompleteListing(server, c, listings[c])
  }

  lemma CatalogGrows(
    server: Server, codes: seq<string>, code: string, listings: map<string, seq<Page>>, pages: seq<Page>)
    requires code !in codes && AllListed(server, codes, listings)
    requires !Blank(code) && CompleteListing(server, code, pages)
    ensures AllListed(server, codes + [code], listings[code := pages])
    ensures CatalogRows(FirstCodes(codes + [code]), listings[code := pages])
         == CatalogRows(FirstCodes(codes), listings) + Rows(pages)
  {
    FirstCodesSnoc(codes, code);
    RowsOfOneMore(FirstCodes(codes), code, listings, pages);
  }

  lemma RowsOfOneMore(codes: seq<string>, code: string, listings: map<string, seq<Page>>, pages: seq<Page>)
    requires code !in codes
    ensures CatalogRows(codes + [code], listings[code := pages]) == CatalogRows(codes, listings) + Rows(pages)
  {
    hide Rows;
    assert (codes + [code])[..|codes|] == codes;
    SameRows(codes, listings, code, pages);
  }

  lemma FirstCodesSnoc(codes: seq<string>, code: string)
    ensures FirstCodes(codes + [code]) == FirstCodes(codes) + (if code in codes then [] else [code])
  {
    assert (codes + [code])[..|codes|] == codes;
  }

  lemma {:induction false} SameRows(
    codes: seq<string>, listings: map<string, seq<Page>>, code: string, pages: seq<Page>)
    requires code !in codes
    ensures CatalogRows(codes, listings[code := pages]) == CatalogRows(codes, listings)
  {
    if codes != [] {
      SameRows(codes[..|codes| - 1], listings, code, pages);
    }
  }

  /** No page was asked for twice, none beyond the limit, none of an unlisted category. */
  ghost predicate Sparing(log: seq<Request>, codes: seq<string>) {
    && (forall i, j :: 0 <= i < j < |log| ==> log[i] != log[j])
    && (forall i :: 0 <= i < |log| ==> log[i].page < 1_000 && log[i].code in codes)
  }

  lemma SparingGrows(log: seq<Request>, codes: seq<string>, code: string, n: nat)
    requires Sparing(log, codes) && n <= MAX_PAGES && code !in codes
    ensures Sparing(log + Asked(code, n), codes + [code])
  {
    var all := log + Asked(code, n);
    assert forall i :: |log| <= i < |all| ==> all[i] == Request(code, i - |log|);
    assert forall i :: 0 <= i < |log| ==> all[i] == log[i];
  }

  lemma CodeRepeats(
    server: Server, codes: seq<string>, code: string, listings: map<string, seq<Page>>, log: seq<Request>)
    requires code in codes && AllListed(server, codes, listings) && Sparing(log, codes)
    ensures FirstCodes(codes + [code]) == FirstCodes(codes)
    ensures AllListed(server, codes + [code], listings) && Sparing(log, codes + [code])
  {
    FirstCodesSnoc(codes, code);
  }

  /** The books of an enumeration that has not listed anything yet. */
  lemma NothingListed(server: Server)
    ensures EpicsOf(CatalogRows(FirstCodes([]), map[])) == {} && FirstPerEpic(CatalogRows(FirstCodes([]), map[])) == []
    ensures AllListed(server, [], map[]) && Sparing([], [])
  {
  }

  lemma ListedIsListable(server: Server, codes: seq<string>, listings: map<string, seq<Page>>)
    requires AllListed(server, codes, listings)
    ensures forall c :: c in codes ==> Listable(server, c)
  {
  }

  lemma StillSparing(log: seq<Request>, codes: seq<string>, more: seq<string>)
    requires Sparing(log, codes)
    ensures Sparing(log, codes + more)
  {
  }

  /** The first category that cannot be listed, and what is wrong with it. */
  ghost predicate FailsFirst(server: Server, codes: seq<string>, i: nat, e: AppError)
    requires i < |codes|
  {
    && (forall c :: c in codes[..i] ==> Listable(server, c)) && !Listable(server, codes[i])
    && if Blank(codes[i]) then e == CatalogPagination("", 0, CodeEmpty) else Blames(server, codes[i], e)
  }

  /**
   * The whole catalog or an error: it succeeds exactly when every category of the account can be
   * listed to its end, and then has the first listing of every EPIC of every page, in order.
   */
  method GetAllMarkets(categories: Result<seq<string>, AppError>, server: Server)
    returns (r: Result<seq<Instrument>, AppError>, ghost listings: map<string, seq<Page>>, ghost log: seq<Request>)
    ensures r.Ok? <==> categories.Ok? && forall c :: c in categories.value ==> Listable(server, c)
    ensures r.Ok? ==>
              && AllListed(server, categories.value, listings)
              && r.value == FirstPerEpic(CatalogRows(FirstCodes(categories.value), listings))
    ensures categories.Err? ==> r == Err(CatalogRequest("categories", 0, categories.error)) && log == []
    ensures categories.Ok? && r.Err? ==>
              exists i :: 0 <= i < |categories.value| && FailsFirst(server, categories.value, i, r.error)
    ensures categories.Ok? ==> Sparing(log, categories.value)
  {
    hide AllListed, Sparing, EpicsOf, FirstPerEpic, CatalogRows, FirstCodes, CompleteListing, Blank, Blames;
    listings, log := map[], [];
    if categories.Err? {
      return Err(CatalogRequest("categories", 0, categories.error)), listings, log;
    }
    var codes := categories.value;
    var seenCategories: set<string>, seenEpics: set<string>, markets: seq<Instrument> := {}, {}, [];
    NothingListed(server);
    assert codes[..0] == [];
    for i := 0 to |codes|
      invariant forall c :: c in seenCategories <==> c in codes[..i]
      invariant AllListed(server, codes[..i], listings)
      invariant seenEpics == EpicsOf(CatalogRows(FirstCodes(codes[..i]), listings))
      invariant markets == FirstPerEpic(CatalogRows(FirstCodes(codes[..i]), listings))
      invariant Sparing(log, codes[..i])
    {
      var code := codes[i];
      ghost var before := codes[..i];
      assert codes[..i + 1] == before + [code] && codes == before + codes[i..];
      if Blank(code) {
        StillSparing(log, before, codes[i..]);
        ListedIsListable(server, before, listings);
        assert FailsFirst(server, codes, i, CatalogPagination("", 0, CodeEmpty));
        return Err(CatalogPagination("", 0, CodeEmpty)), listings, log;
      }
      if code in seenCategories {
        CodeRepeats(server, before, code, listings, log);
        continue;
      }
      seenCategories := seenCategories + {code};
      var listed;
      ghost var pages, asked;
      listed, seenEpics, markets, pages, asked :=
        EnumerateCategory(server, code, seenEpics, markets, CatalogRows(FirstCodes(before), listings));
      SparingGrows(log, before, code, asked);
      log := log + Asked(code, asked);
      if listed.Err? {
        assert codes == before + [code] + codes[i + 1..];
        StillSparing(log, before + [code], codes[i + 1..]);
        ListedIsListable(server, before, listings);
        assert FailsFirst(server, codes, i, listed.error);
        return Err(listed.error), listings, log;
      }
      CatalogGrows(server, before, code, listings, pages);
      listings := listings[code := pages];
    }
    assert codes[..|codes|] == codes;
    ListedIsListable(server, codes, listings);
    return Ok(markets), listings, log;
  }
}
