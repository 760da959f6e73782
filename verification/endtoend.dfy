/**
 * The dashboard's job list request end to end: the search box's sanitised text
 * and the two filter selects build the URL, the browser's URL parser drops its
 * tabs and newlines, the server reads it back as query parameters, and
 * `getAllJobs` answers it.
 */
module EndToEnd {
  import opened Wrappers
  import opened JsText
  import opened Numerals
  import opened JobModel
  import opened JobController
  import opened SearchQuery
  import opened DashboardPage

  /** A filter select's choice: the `all` option or one value. */
  datatype Choice<T> = Any | Only(value: T)

  /** The value a choice asks the server to filter by. */
  function Wanted<T>(c: Choice<T>): (r: Option<T>)
    ensures r.Some? <==> c.Only?
  {
    if c.Any? then None else Some(c.value)
  }

  /** The status select offers every status but `failed`. */
  predicate Offered(c: Choice<Status>)
  {
    c.Any? || c.value != Failed
  }

  function StatusOptionText(c: Choice<Status>): string
  {
    if c.Any? then AllOption else StatusName(c.value)
  }

  function PriorityOptionText(c: Choice<Priority>): string
  {
    if c.Any? then AllOption else PriorityName(c.value)
  }

  /** The options of the two selects, in the order they are listed. */
  const StatusOptions: seq<string> := ["all", "completed", "running", "pending"]
  const PriorityOptions: seq<string> := ["all", "high", "medium", "low"]

  /** Each option of the selects is the text of one choice. */
  lemma OptionsAreChoices()
    ensures StatusOptions == [StatusOptionText(Any), StatusOptionText(Only(Completed)),
                              StatusOptionText(Only(Running)), StatusOptionText(Only(Pending))]
    ensures PriorityOptions == [PriorityOptionText(Any), PriorityOptionText(Only(High)),
                                PriorityOptionText(Only(Medium)), PriorityOptionText(Only(Low))]
  {
  }

  /** The search term the server applies to a query the search box produced. */
  function SearchTerm(query: string): Option<string>
  {
    if Trim(query) == [] then None else Some(ToLower(Trim(query)))
  }

  /** The response to `fetchJobs(page, limit)` with the page's query and filter state. */
  function ListRequest(st: Store, page: int, limit: int, query: string, statusFilter: string,
                       priorityFilter: string): Response<ListPage>
  {
    GetAllJobs(st, ToListQuery(QueryParams(Transmit(ListUrl(page, limit, query, statusFilter, priorityFilter)))))
  }

  /**
   * Allowed characters are none of the URL's delimiters, and the only controls
   * among them are whitespace; kept apart so the quantified callers stay cheap.
   */
  lemma AllowedIsPlain(c: char)
    requires Allowed(c)
    ensures c != '&' && c != '#' && c != '%' && c != '+'
    ensures C0OrSpace(c) ==> IsWhitespace(c)
  {
  }

  /** Text the search box produced never holds a character that would end or re-encode a URL parameter. */
  lemma SanitizedIsPlain(typed: string)
    ensures Plain(Sanitize(typed))
  {
    var q := Sanitize(typed);
    forall i | 0 <= i < |q| ensures q[i] != '&' && q[i] != '#' && q[i] != '%' && q[i] != '+' {
      AllowedIsPlain(q[i]);
    }
  }

  /** An option is already trimmed and lower-case, so normalising it changes nothing. */
  lemma {:induction false} OptionNormal(o: string)
    requires |o| >= 1 && !IsWhitespace(o[0]) && !IsWhitespace(o[|o| - 1])
    requires forall i :: 0 <= i < |o| ==> IsAsciiLower(o[i])
    ensures Normalise(Some(o)) == o
    ensures Plain(o)
  {
    TrimNoop(o);
    ToLowerOfLower(o);
  }

  /** Lower-case letters are neither controls nor spaces, so the browser sends such a text as it is. */
  lemma OptionSent(o: string, last: bool)
    requires |o| >= 1 && forall i :: 0 <= i < |o| ==> IsAsciiLower(o[i])
    ensures Delivered(o, last) == o
  {
    assert NoTabsNewlines(o);
    assert TrimC0End(o) == o;
  }

  /** The browser sends a status option's text as it is. */
  lemma StatusTextSent(c: Choice<Status>, last: bool)
    ensures Delivered(StatusOptionText(c), last) == StatusOptionText(c)
  {
    match c
    case Any => OptionSent(AllOption, last);
    case Only(s) => OptionSent(StatusName(s), last);
  }

  /** The browser sends a priority option's text as it is. */
  lemma PriorityTextSent(c: Choice<Priority>, last: bool)
    ensures Delivered(PriorityOptionText(c), last) == PriorityOptionText(c)
  {
    match c
    case Any => OptionSent(AllOption, last);
    case Only(p) => OptionSent(PriorityName(p), last);
  }

  /** The option texts are already trimmed, lower-case and plain. */
  lemma StatusTextNormal(c: Choice<Status>)
    ensures Normalise(Some(StatusOptionText(c))) == StatusOptionText(c)
    ensures Plain(StatusOptionText(c))
  {
    match c
    case Any => OptionNormal(AllOption);
    case Only(s) => OptionNormal(StatusName(s));
  }

  lemma PriorityTextNormal(c: Choice<Priority>)
    ensures Normalise(Some(PriorityOptionText(c))) == PriorityOptionText(c)
    ensures Plain(PriorityOptionText(c))
  {
    match c
    case Any => OptionNormal(AllOption);
    case Only(p) => OptionNormal(PriorityName(p));
  }

  /** A status option reaches the server as written, and is read as the chosen status. */
  lemma StatusOptionRead(c: Choice<Status>)
    requires Offered(c)
    ensures Plain(StatusOptionText(c))
    ensures StatusOptionText(c) != AllOption <==> c.Only?
    ensures c.Only? ==> StatusFilter(Some(StatusOptionText(c))) == Ok(Wanted(c))
  {
    StatusTextNormal(c);
  }

  /** A priority option reaches the server as written, and is read as the chosen priority. */
  lemma PriorityOptionRead(c: Choice<Priority>)
    ensures Plain(PriorityOptionText(c))
    ensures PriorityOptionText(c) != AllOption <==> c.Only?
    ensures c.Only? ==> PriorityFilter(Some(PriorityOptionText(c))) == Ok(Wanted(c))
  {
    PriorityTextNormal(c);
    if c.Only? {
      assert ParsePriority(PriorityName(c.value)) == Some(c.value);
    }
  }

  /**
   * The search text the server reads: the text without its tabs and newlines,
   * and also without its trailing C0 controls and spaces when no filter follows
   * it in the URL.
   */
  function SentText(q: string, sc: Choice<Status>, pc: Choice<Priority>): string
  {
    Delivered(q, sc.Any? && pc.Any?)
  }

  /** The query the server receives from the page. */
  function SentQuery(page: int, limit: int, q: string, sc: Choice<Status>, pc: Choice<Priority>): ListQuery
  {
    ListQuery(Some(IntToString(page)), Some(IntToString(limit)),
              if pc.Only? then Some(PriorityOptionText(pc)) else None,
              if sc.Only? then Some(StatusOptionText(sc)) else None,
              if q != "" then Some(SentText(q, sc, pc)) else None)
  }

  /** The filter the server reads from the page's query: only a one- or two-character search is refused. */
  lemma SentFilter(page: int, limit: int, q: string, sc: Choice<Status>, pc: Choice<Priority>)
    requires Offered(sc)
    ensures var t := SentText(q, sc, pc);
      var r := ParseFilter(SentQuery(page, limit, q, sc, pc));
      && (r.Err? <==> 1 <= |Trim(t)| < MinSearchLength)
      && (r.Err? ==> r.error == SearchTooShort)
      && (r.Ok? ==> r.value == Filter(Wanted(pc), Wanted(sc), SearchTerm(t)))
  {
    var t := SentText(q, sc, pc);
    var lq := SentQuery(page, limit, q, sc, pc);
    assert PriorityFilter(lq.priority) == Ok(Wanted(pc)) by { PriorityOptionRead(pc); }
    assert StatusFilter(lq.status) == Ok(Wanted(sc)) by { StatusOptionRead(sc); }
    assert SearchFilter(lq.query) ==
      (if 1 <= |Trim(t)| < MinSearchLength then Err(SearchTooShort) else Ok(SearchTerm(t))) by {
      assert q == "" ==> t == "";
      assert Normalise(lq.query) == (if Trim(t) == [] then "" else ToLower(Trim(t)));
    }
  }

  /** Kept apart so the solver sees the product's sign without the listing's context. */
  lemma NonNegativeProduct(a: nat, b: nat)
    ensures a * b >= 0
  {
  }

  /** The listing the server produces for the query the page sends. */
  lemma SentListing(st: Store, page: int, limit: int, q: string, sc: Choice<Status>, pc: Choice<Priority>)
    requires page >= 1 && limit >= 1 && Offered(sc)
    ensures var t := SentText(q, sc, pc);
      var r := GetAllJobs(st, SentQuery(page, limit, q, sc, pc));
      && (r.Failure? <==> 1 <= |Trim(t)| < MinSearchLength)
      && (r.Failure? ==> r == Failure(400, SearchTooShort))
      && (r.Success? ==>
            && r.data.page == page && r.data.limit == limit
            && r.data.total == |Matching(st.jobs, Filter(Wanted(pc), Wanted(sc), SearchTerm(t)))|)
  {
    var t := SentText(q, sc, pc);
    var lq := SentQuery(page, limit, q, sc, pc);
    var short := 1 <= |Trim(t)| < MinSearchLength;
    var f := Filter(Wanted(pc), Wanted(sc), SearchTerm(t));
    assert NumberOr(lq.page, DefaultPage) == page && NumberOr(lq.limit, DefaultLimit) == limit by {
      PagingDefaults(page);
      PagingDefaults(limit);
    }
    assert ParseFilter(lq) == if short then Err(SearchTooShort) else Ok(f) by {
      SentFilter(page, limit, q, sc, pc);
    }
    ListingFromFilter(st, lq, page, limit, short, f);
  }

  /** The listing, once the filter and the paging the server reads are known. */
  lemma ListingFromFilter(st: Store, lq: ListQuery, page: int, limit: int, short: bool, f: Filter)
    requires page >= 1 && limit >= 1
    requires NumberOr(lq.page, DefaultPage) == page && NumberOr(lq.limit, DefaultLimit) == limit
    requires ParseFilter(lq) == if short then Err(SearchTooShort) else Ok(f)
    ensures var r := GetAllJobs(st, lq);
      && (r.Failure? <==> short)
      && (r.Failure? ==> r == Failure(400, SearchTooShort))
      && (r.Success? ==> r.data.page == page && r.data.limit == limit && r.data.total == |Matching(st.jobs, f)|)
  {
    NonNegativeProduct(page - 1, limit);
  }

  /** What the URL parser strips from the end of a text is its tail from `|TrimC0End(q)|` on. */
  lemma TrimC0EndSplit(q: string)
    ensures q == TrimC0End(q) + q[|TrimC0End(q)|..]
    ensures forall j :: 0 <= j < |q[|TrimC0End(q)|..]| ==> C0OrSpace(q[|TrimC0End(q)|..][j])
  {
    var n := |TrimC0End(q)|;
    forall j | 0 <= j < |q[n..]| ensures C0OrSpace(q[n..][j]) {
      assert q[n..][j] == q[n + j];
    }
  }

  /** A tail of controls and spaces is whitespace when every control of the text is. */
  lemma BlankTail(q: string, n: nat)
    requires n <= |q|
    requires forall j :: 0 <= j < |q[n..]| ==> C0OrSpace(q[n..][j])
    requires forall i :: 0 <= i < |q| ==> C0OrSpace(q[i]) ==> IsWhitespace(q[i])
    ensures AllWhitespace(q[n..])
  {
    forall j | 0 <= j < |q[n..]| ensures IsWhitespace(q[n..][j]) {
      assert q[n..][j] == q[n + j];
    }
  }

  lemma {:induction false} DropKeepsBlank(w: string)
    requires AllWhitespace(w)
    ensures AllWhitespace(DropTabsNewlines(w))
  {
    if w != [] {
      DropKeepsBlank(w[1..]);
    }
  }

  /**
   * Stripping the end of a text whose only controls are whitespace changes
   * nothing the server's `trim` would keep.
   */
  lemma DeliveredTrim(q: string, last: bool)
    requires forall i :: 0 <= i < |q| ==> C0OrSpace(q[i]) ==> IsWhitespace(q[i])
    ensures Trim(Delivered(q, last)) == Trim(DropTabsNewlines(q))
  {
    if last {
      var t := TrimC0End(q);
      var rest := q[|t|..];
      TrimC0EndSplit(q);
      BlankTail(q, |t|);
      DropAppend(t, rest);
      DropKeepsBlank(rest);
      TrimAppendBlank(DropTabsNewlines(t), DropTabsNewlines(rest));
    }
  }

  /** The query the page's request carries once the browser has parsed its URL. */
  lemma PageSendsSentQuery(page: int, limit: int, q: string, sc: Choice<Status>, pc: Choice<Priority>)
    requires Plain(q) && Offered(sc)
    ensures ToListQuery(QueryParams(Transmit(ListUrl(page, limit, q, StatusOptionText(sc), PriorityOptionText(pc)))))
      == SentQuery(page, limit, q, sc, pc)
  {
    var s, p := StatusOptionText(sc), PriorityOptionText(pc);
    StatusOptionRead(sc);
    PriorityOptionRead(pc);
    ListRequestQuery(page, limit, q, s, p);
    assert DeliveredOption(Chosen(p), true) == if pc.Only? then Some(p) else None by {
      PriorityTextSent(pc, true);
    }
    assert DeliveredOption(Chosen(s), p == AllOption) == if sc.Only? then Some(s) else None by {
      StatusTextSent(sc, p == AllOption);
    }
    assert DeliveredOption(NonEmpty(q), s == AllOption && p == AllOption)
      == if q != "" then Some(SentText(q, sc, pc)) else None;
  }

  /**
   * With a page and limit of at least one, the list request fails exactly when
   * the search text, once the browser has dropped its tabs and newlines and the
   * server has trimmed it, has one or two characters (400, search too short);
   * otherwise it lists the jobs matching the chosen status, the chosen priority
   * and that lower-cased search text.
   */
  lemma DashboardListing(st: Store, page: int, limit: int, typed: string, sc: Choice<Status>, pc: Choice<Priority>)
    requires page >= 1 && limit >= 1 && Offered(sc)
    ensures var q := Sanitize(typed);
      var d := DropTabsNewlines(q);
      var r := ListRequest(st, page, limit, q, StatusOptionText(sc), PriorityOptionText(pc));
      && (r.Failure? <==> 1 <= |Trim(d)| < MinSearchLength)
      && (r.Failure? ==> r == Failure(400, SearchTooShort))
      && (r.Success? ==>
            && r.data.page == page && r.data.limit == limit
            && r.data.total == |Matching(st.jobs, Filter(Wanted(pc), Wanted(sc), SearchTerm(d)))|)
  {
    var q := Sanitize(typed);
    SanitizedIsPlain(typed);
    PageSendsSentQuery(page, limit, q, sc, pc);
    SentListing(st, page, limit, q, sc, pc);
    forall i | 0 <= i < |q| ensures C0OrSpace(q[i]) ==> IsWhitespace(q[i]) {
      AllowedIsPlain(q[i]);
    }
    DeliveredTrim(q, sc.Any? && pc.Any?);
  }

  /** The search box keeps "a\tb" as typed. */
  lemma TypedTabKept()
    ensures Sanitize("a\tb") == "a\tb"
  {
    assert Trim("a\tb") == "a\tb" by { TrimNoop("a\tb"); }
    assert StripDisallowed("a\tb") == "a\tb" by { StripNoop("a\tb"); }
  }

  /** The browser sends "a\tb" as "ab". */
  lemma TypedTabDropped()
    ensures DropTabsNewlines("a\tb") == "ab"
  {
    var typed := "a\tb";
    assert typed[1..] == "\tb" && typed[1..][1..] == "b";
  }

  /** The server sees "a\tb", typed in the search box, as the two-letter text "ab". */
  lemma TypedTabSeen()
    ensures Trim(DropTabsNewlines(Sanitize("a\tb"))) == "ab"
  {
    TypedTabKept();
    TypedTabDropped();
    TwoLettersTrimmed();
  }

  lemma TwoLettersTrimmed()
    ensures Trim("ab") == "ab"
  {
    TrimNoop("ab");
  }

  /**
   * A tab typed between two letters passes the search box but is deleted by
   * the browser, so the server sees a two-letter search and refuses it.
   */
  lemma TypedTabExample(st: Store)
    ensures ListRequest(st, 1, 10, Sanitize("a\tb"), AllOption, AllOption) == Failure(400, SearchTooShort)
  {
    TypedTabSeen();
    DashboardListing(st, 1, 10, "a\tb", Any, Any);
  }
}
