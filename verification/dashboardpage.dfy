/**
 * The dashboard page (frontend/src/pages/Dashboard.jsx): the list request it
 * builds, and the optimistic updates it makes to the job list, the running-id
 * queue and the status counters when a job is run and when polling sees it
 * complete.
 */
module DashboardPage {
  import opened Wrappers
  import opened JsText
  import opened Numerals
  import opened Json
  import opened JobModel
  import opened JobController
  import opened DashController

  // ---------------------------------------------------------------- fetchJobs URL

  const ListPath := "/api/jobs"

  /** The select option that means "no filter". */
  const AllOption := "all"

  /** The request URL for optional search, status and priority values, built piece by piece as the page does. */
  function RequestUrl(page: int, limit: int, query: Option<string>, status: Option<string>, priority: Option<string>)
    : string
  {
    var base := ListPath + "?page=" + IntToString(page) + "&limit=" + IntToString(limit);
    var withQuery := if query.Some? then base + "&query=" + query.value else base;
    var withStatus := if status.Some? then withQuery + "&status=" + status.value else withQuery;
    if priority.Some? then withStatus + "&priority=" + priority.value else withStatus
  }

  /** The search text is sent when it is not empty. */
  function NonEmpty(query: string): (r: Option<string>)
    ensures r.Some? <==> query != ""
    ensures r.Some? ==> r.value == query
  {
    if query != "" then Some(query) else None
  }

  /** A filter is sent when it is not "all". */
  function Chosen(filter: string): (r: Option<string>)
    ensures r.Some? <==> filter != AllOption
    ensures r.Some? ==> r.value == filter
  {
    if filter != AllOption then Some(filter) else None
  }

  /** The request `fetchJobs(page, limit)` sends for the page's search text and filters. */
  function ListUrl(page: int, limit: int, query: string, statusFilter: string, priorityFilter: string): string
  {
    RequestUrl(page, limit, NonEmpty(query), Chosen(statusFilter), Chosen(priorityFilter))
  }

  /** The parameters a request URL is meant to carry, in order. */
  function RequestParams(page: int, limit: int, query: Option<string>, status: Option<string>, priority: Option<string>)
    : (ps: seq<(string, string)>)
    ensures |ps| >= 2
  {
    [("page", IntToString(page)), ("limit", IntToString(limit))]
    + (if query.Some? then [("query", query.value)] else [])
    + (if status.Some? then [("status", status.value)] else [])
    + (if priority.Some? then [("priority", priority.value)] else [])
  }

  /** `key=value`. */
  function RenderParam(p: (string, string)): string
  {
    p.0 + "=" + p.1
  }

  /** Parameters joined by `&`. */
  function RenderParams(ps: seq<(string, string)>): string
    requires |ps| >= 1
  {
    if |ps| == 1 then RenderParam(ps[0])
    else RenderParams(ps[..|ps| - 1]) + "&" + RenderParam(ps[|ps| - 1])
  }

  /** Characters that survive in a query-string value without escaping. */
  predicate Plain(s: string)
  {
    forall i :: 0 <= i < |s| ==> s[i] != '&' && s[i] != '#' && s[i] != '%' && s[i] != '+'
  }

  /** A parameter name: plain, and without `=`. */
  predicate NameOk(k: string)
  {
    Plain(k) && forall i :: 0 <= i < |k| ==> k[i] != '='
  }

  /** The position of the first `c` in `s`, or `|s|`. */
  function IndexOf(s: string, c: char): (i: nat)
    ensures i <= |s| && (i < |s| ==> s[i] == c)
    ensures forall k :: 0 <= k < i ==> s[k] != c
  {
    if s == [] then 0 else if s[0] == c then 0 else 1 + IndexOf(s[1..], c)
  }

  /** The pieces of `s` between occurrences of `sep`. */
  function Split(s: string, sep: char): (r: seq<string>)
    ensures |r| >= 1
  {
    if s == [] then [""]
    else
      var t := Split(s[1..], sep);
      if s[0] == sep then [""] + t else [[s[0]] + t[0]] + t[1..]
  }

  /** One `key=value` field: the key ends at the first `=`. */
  function ParseParam(f: string): (string, string)
  {
    var i := IndexOf(f, '=');
    (f[..i], if i < |f| then f[i + 1..] else "")
  }

  /** The server's reading of the query string: everything after the first `?`, split on `&`. */
  function QueryParams(url: string): seq<(string, string)>
  {
    var q := IndexOf(url, '?');
    if q == |url| then []
    else
      ParseFields(Split(url[q + 1..], '&'))
  }

  /** Each `&`-separated field read as a name and a value. */
  function ParseFields(fields: seq<string>): (r: seq<(string, string)>)
    ensures |r| == |fields| && forall i :: 0 <= i < |fields| ==> r[i] == ParseParam(fields[i])
  {
    seq(|fields|, i requires 0 <= i < |fields| => ParseParam(fields[i]))
  }

  /** The first value given for `key`. */
  function ParamValue(ps: seq<(string, string)>, key: string): Option<string>
  {
    if ps == [] then None else if ps[0].0 == key then Some(ps[0].1) else ParamValue(ps[1..], key)
  }

  /** How Express hands the parameters to `getAllJobs`. */
  function ToListQuery(ps: seq<(string, string)>): ListQuery
  {
    ListQuery(ParamValue(ps, "page"), ParamValue(ps, "limit"), ParamValue(ps, "priority"),
              ParamValue(ps, "status"), ParamValue(ps, "query"))
  }

  lemma {:induction false} SplitAppend(a: string, sep: char, b: string)
    ensures Split(a + [sep] + b, sep) == Split(a, sep) + Split(b, sep)
  {
    if a == [] {
      assert a + [sep] + b == [sep] + b;
      assert ([sep] + b)[1..] == b;
    } else {
      assert (a + [sep] + b)[1..] == a[1..] + [sep] + b;
      SplitAppend(a[1..], sep, b);
    }
  }

  lemma {:induction false} SplitNone(s: string, sep: char)
    requires forall i :: 0 <= i < |s| ==> s[i] != sep
    ensures Split(s, sep) == [s]
  {
    if s != [] {
      SplitNone(s[1..], sep);
      assert [s[0]] + s[1..] == s;
    }
  }

  lemma ParseRendered(k: string, v: string)
    requires forall i :: 0 <= i < |k| ==> k[i] != '='
    ensures ParseParam(RenderParam((k, v))) == (k, v)
  {
    var f := k + "=" + v;
    assert f[|k|] == '=';
    assert f[..|k|] == k && f[|k| + 1..] == v;
  }

  /** Splitting rendered parameters on `&` gives one field per parameter. */
  lemma {:induction false} SplitRendered(ps: seq<(string, string)>)
    requires |ps| >= 1
    requires forall j :: 0 <= j < |ps| ==> Plain(ps[j].0) && Plain(ps[j].1)
    ensures var fields := Split(RenderParams(ps), '&');
      |fields| == |ps| && forall j :: 0 <= j < |ps| ==> fields[j] == RenderParam(ps[j])
    decreases |ps|
  {
    var last := ps[|ps| - 1];
    var r := RenderParam(last);
    assert forall i :: 0 <= i < |r| ==> r[i] != '&' by {
      forall i | 0 <= i < |r| ensures r[i] != '&' {
        if i < |last.0| {
          assert r[i] == last.0[i];
        } else if i > |last.0| {
          assert r[i] == last.1[i - |last.0| - 1];
        }
      }
    }
    SplitNone(r, '&');
    if |ps| > 1 {
      SplitRendered(ps[..|ps| - 1]);
      SplitAppend(RenderParams(ps[..|ps| - 1]), '&', r);
    }
  }

  /** A parameter list is read back as written when keys have no `=` and nothing has a delimiter. */
  lemma QueryParamsRoundTrip(path: string, ps: seq<(string, string)>)
    requires |ps| >= 1
    requires forall i :: 0 <= i < |path| ==> path[i] != '?'
    requires forall j :: 0 <= j < |ps| ==> NameOk(ps[j].0) && Plain(ps[j].1)
    ensures QueryParams(path + "?" + RenderParams(ps)) == ps
  {
    var url := path + "?" + RenderParams(ps);
    var fields := Split(RenderParams(ps), '&');
    assert QueryParams(url) == ParseFields(fields) by {
      QueryStart(path, RenderParams(ps));
    }
    FieldsRendered(ps);
  }

  /** Splitting a rendered list at `&` and reading each field gives the list back. */
  lemma FieldsRendered(ps: seq<(string, string)>)
    requires |ps| >= 1
    requires forall j :: 0 <= j < |ps| ==> NameOk(ps[j].0) && Plain(ps[j].1)
    ensures ParseFields(Split(RenderParams(ps), '&')) == ps
  {
    var fields := Split(RenderParams(ps), '&');
    SplitRendered(ps);
    var r := ParseFields(fields);
    forall j | 0 <= j < |ps| ensures r[j] == ps[j] {
      ParseRendered(ps[j].0, ps[j].1);
    }
  }

  /** The query string starts after the path's `?`. */
  lemma QueryStart(path: string, rest: string)
    requires forall i :: 0 <= i < |path| ==> path[i] != '?'
    ensures IndexOf(path + "?" + rest, '?') == |path|
    ensures (path + "?" + rest)[|path| + 1..] == rest
  {
    var url := path + "?" + rest;
    assert url[|path|] == '?';
    assert forall i :: 0 <= i < |path| ==> url[i] == path[i];
  }

  lemma {:induction false} RenderSnoc(ps: seq<(string, string)>, p: (string, string))
    requires |ps| >= 1
    ensures RenderParams(ps + [p]) == RenderParams(ps) + "&" + RenderParam(p)
  {
    var q := ps + [p];
    assert q[..|q| - 1] == ps;
  }

  lemma Regroup(x: string, k: string, v: string)
    ensures x + ("&" + k + "=") + v == x + "&" + (k + "=" + v)
  {
  }

  lemma Assoc(x: string, r: string, t: string)
    ensures x + r + "&" + t == x + (r + "&" + t)
  {
  }

  /** Appending one more `&key=value` to a rendered list renders the longer list. */
  lemma AppendParam(ps: seq<(string, string)>, k: string, v: string)
    requires |ps| >= 1
    ensures ListPath + "?" + RenderParams(ps) + ("&" + k + "=") + v == ListPath + "?" + RenderParams(ps + [(k, v)])
  {
    RenderSnoc(ps, (k, v));
    var x, r, t := ListPath + "?", RenderParams(ps), k + "=" + v;
    assert RenderParam((k, v)) == t;
    Regroup(x + r, k, v);
    Assoc(x, r, t);
  }

  lemma BaseUrl(page: int, limit: int)
    ensures ListPath + "?page=" + IntToString(page) + "&limit=" + IntToString(limit)
      == ListPath + "?" + RenderParams([("page", IntToString(page)), ("limit", IntToString(limit))])
  {
    var p0 := [("page", IntToString(page)), ("limit", IntToString(limit))];
    assert p0[..1] == [p0[0]];
    assert RenderParams(p0) == ("page" + "=" + IntToString(page)) + "&" + ("limit" + "=" + IntToString(limit));
    assert "?page=" == "?" + "page" + "=";
    assert "&limit=" == "&" + "limit" + "=";
  }

  /** The URL built step by step is the rendering of the parameter list. */
  lemma RequestUrlRendersParams(page: int, limit: int, query: Option<string>, status: Option<string>,
                                priority: Option<string>)
    ensures RequestUrl(page, limit, query, status, priority) ==
      ListPath + "?" + RenderParams(RequestParams(page, limit, query, status, priority))
  {
    var p0 := [("page", IntToString(page)), ("limit", IntToString(limit))];
    var p1 := p0 + (if query.Some? then [("query", query.value)] else []);
    var p2 := p1 + (if status.Some? then [("status", status.value)] else []);
    var p3 := p2 + (if priority.Some? then [("priority", priority.value)] else []);
    assert p3 == RequestParams(page, limit, query, status, priority);
    BaseUrl(page, limit);
    if query.Some? {
      assert "&query=" == "&" + "query" + "=";
      AppendParam(p0, "query", query.value);
    } else {
      assert p1 == p0;
    }
    if status.Some? {
      assert "&status=" == "&" + "status" + "=";
      AppendParam(p1, "status", status.value);
    } else {
      assert p2 == p1;
    }
    if priority.Some? {
      assert "&priority=" == "&" + "priority" + "=";
      AppendParam(p2, "priority", priority.value);
    } else {
      assert p3 == p2;
    }
  }

  /** A rendered integer holds only a minus sign and digits. */
  lemma IntToStringPlain(i: int)
    ensures Plain(IntToString(i))
    ensures forall k :: 0 <= k < |IntToString(i)| ==>
      IntToString(i)[k] != '=' && !C0OrSpace(IntToString(i)[k]) && !TabOrNewline(IntToString(i)[k])
  {
    var s := IntToString(i);
    var d := NatToString(if i < 0 then -i else i);
    assert AllDigits(d, 10);
    forall k | 0 <= k < |s| ensures s[k] == '-' || IsAsciiDigit(s[k]) {
      if i < 0 {
        if k > 0 {
          assert s[k] == d[k - 1];
          assert DigitValue(d[k - 1], 10).Some?;
        }
      } else {
        assert DigitValue(d[k], 10).Some?;
      }
    }
  }

  lemma RequestParamsPlain(page: int, limit: int, query: Option<string>, status: Option<string>,
                           priority: Option<string>)
    requires OptionPlain(query) && OptionPlain(status) && OptionPlain(priority)
    ensures var ps := RequestParams(page, limit, query, status, priority);
      forall j :: 0 <= j < |ps| ==> NameOk(ps[j].0) && Plain(ps[j].1)
  {
    IntToStringPlain(page);
    IntToStringPlain(limit);
    assert NameOk("page") && NameOk("limit") && NameOk("query") && NameOk("status") && NameOk("priority");
  }

  /** An absent value, or one that needs no escaping. */
  predicate OptionPlain(v: Option<string>)
  {
    v.Some? ==> Plain(v.value)
  }

  /**
   * The query string of a request URL reads back as exactly the parameters it
   * was built from: page and limit always, then each value that is present.
   */
  lemma RequestUrlRoundTrip(page: int, limit: int, query: Option<string>, status: Option<string>,
                            priority: Option<string>)
    requires OptionPlain(query) && OptionPlain(status) && OptionPlain(priority)
    ensures QueryParams(RequestUrl(page, limit, query, status, priority))
      == RequestParams(page, limit, query, status, priority)
  {
    RequestUrlRendersParams(page, limit, query, status, priority);
    RequestParamsPlain(page, limit, query, status, priority);
    QueryParamsRoundTrip(ListPath, RequestParams(page, limit, query, status, priority));
  }

  /** Express hands `getAllJobs` each parameter under its own name. */
  lemma ParamsQuery(page: int, limit: int, query: Option<string>, status: Option<string>, priority: Option<string>)
    ensures ToListQuery(RequestParams(page, limit, query, status, priority)) ==
      ListQuery(Some(IntToString(page)), Some(IntToString(limit)), priority, status, query)
  {
    var pv, lv := IntToString(page), IntToString(limit);
    var p0 := [("page", pv), ("limit", lv)];
    var q := if query.Some? then [("query", query.value)] else [];
    var sf := if status.Some? then [("status", status.value)] else [];
    var pf := if priority.Some? then [("priority", priority.value)] else [];
    assert RequestParams(page, limit, query, status, priority) == p0 + q + sf + pf;
    assert ParamValue(p0 + q + sf + pf, "page") == Some(pv) by {
      BlocksLookup(p0, q, sf, pf, "page");
      PagingLookup(pv, lv, "page");
    }
    assert ParamValue(p0 + q + sf + pf, "limit") == Some(lv) by {
      BlocksLookup(p0, q, sf, pf, "limit");
      PagingLookup(pv, lv, "limit");
    }
    assert ParamValue(p0 + q + sf + pf, "query") == query by {
      BlocksLookup(p0, q, sf, pf, "query");
      PagingLookup(pv, lv, "query");
      OptionalLookup(query, "query", "query");
      OptionalLookup(status, "status", "query");
      OptionalLookup(priority, "priority", "query");
    }
    assert ParamValue(p0 + q + sf + pf, "status") == status by {
      BlocksLookup(p0, q, sf, pf, "status");
      PagingLookup(pv, lv, "status");
      OptionalLookup(query, "query", "status");
      OptionalLookup(status, "status", "status");
      OptionalLookup(priority, "priority", "status");
    }
    assert ParamValue(p0 + q + sf + pf, "priority") == priority by {
      BlocksLookup(p0, q, sf, pf, "priority");
      PagingLookup(pv, lv, "priority");
      OptionalLookup(query, "query", "priority");
      OptionalLookup(status, "status", "priority");
      OptionalLookup(priority, "priority", "priority");
    }
  }

  /** A lookup in four consecutive blocks takes the first block that has the key. */
  lemma BlocksLookup(a: seq<(string, string)>, b: seq<(string, string)>, c: seq<(string, string)>,
                     d: seq<(string, string)>, key: string)
    ensures ParamValue(a + b + c + d, key) ==
      if ParamValue(a, key).Some? then ParamValue(a, key)
      else if ParamValue(b, key).Some? then ParamValue(b, key)
      else if ParamValue(c, key).Some? then ParamValue(c, key)
      else ParamValue(d, key)
  {
    ParamValueAppend(a + b + c, d, key);
    ParamValueAppend(a + b, c, key);
    ParamValueAppend(a, b, key);
  }

  lemma PagingLookup(pv: string, lv: string, key: string)
    ensures ParamValue([("page", pv), ("limit", lv)], key) ==
      if key == "page" then Some(pv) else if key == "limit" then Some(lv) else None
  {
    var p0 := [("page", pv), ("limit", lv)];
    assert p0[1..] == [("limit", lv)];
    assert p0[1..][1..] == [];
    assert |"page"| != |"limit"|;
    assert ParamValue(p0[1..], key) == if key == "limit" then Some(lv) else None;
  }

  lemma OptionalLookup(v: Option<string>, k: string, key: string)
    ensures ParamValue(if v.Some? then [(k, v.value)] else [], key) == if v.Some? && k == key then v else None
  {
    if v.Some? {
      assert [(k, v.value)][1..] == [];
    }
  }

  lemma {:induction false} ParamValueAppend(a: seq<(string, string)>, b: seq<(string, string)>, key: string)
    ensures ParamValue(a + b, key) == if ParamValue(a, key).Some? then ParamValue(a, key) else ParamValue(b, key)
  {
    if a == [] {
      assert a + b == b;
    } else {
      assert (a + b)[1..] == a[1..] + b;
      ParamValueAppend(a[1..], b, key);
    }
  }

  // ---------------------------------------------------------------- what the browser sends

  /** An ASCII tab or newline, which the URL parser deletes wherever it occurs. */
  predicate TabOrNewline(c: char)
  {
    c == '\t' || c == '\n' || c == '\r'
  }

  /** A C0 control or a space, which the URL parser strips from the end of its input. */
  predicate C0OrSpace(c: char)
  {
    c <= ' '
  }

  predicate NoTabsNewlines(s: string)
  {
    forall i :: 0 <= i < |s| ==> !TabOrNewline(s[i])
  }

  /** A literal piece of the URL: it holds no tab or newline and ends in a visible character. */
  predicate Visible(piece: string)
  {
    NoTabsNewlines(piece) && piece != [] && !C0OrSpace(piece[|piece| - 1])
  }

  /** `s` without its tabs and newlines. */
  function DropTabsNewlines(s: string): (r: string)
    ensures |r| <= |s| && NoTabsNewlines(r)
    ensures NoTabsNewlines(s) ==> r == s
  {
    if s == [] then []
    else
      assert s == [s[0]] + s[1..];
      if TabOrNewline(s[0]) then DropTabsNewlines(s[1..]) else [s[0]] + DropTabsNewlines(s[1..])
  }

  /** `s` without its trailing C0 controls and spaces. */
  function TrimC0End(s: string): (r: string)
    ensures |r| <= |s| && r == s[..|r|]
    ensures forall i :: |r| <= i < |s| ==> C0OrSpace(s[i])
    ensures r == [] || !C0OrSpace(r[|r| - 1])
  {
    if s == [] then []
    else if C0OrSpace(s[|s| - 1]) then TrimC0End(s[..|s| - 1])
    else s
  }

  /**
   * What the browser's URL parser keeps of a request URL (the basic URL parser
   * of the WHATWG URL Standard): trailing C0 controls and spaces are stripped,
   * then every tab and newline is removed. For values without `&`, `#`, `%`
   * or `+` (see `Plain`) nothing else changes what the server reads: the
   * characters the browser percent-encodes are decoded back by the server.
   */
  function Transmit(url: string): string
  {
    DropTabsNewlines(TrimC0End(url))
  }

  /** The text the server reads for a value the page put in the URL, `last` if nothing follows it. */
  function Delivered(v: string, last: bool): string
  {
    DropTabsNewlines(if last then TrimC0End(v) else v)
  }

  function DeliveredOption(v: Option<string>, last: bool): (r: Option<string>)
    ensures r.Some? <==> v.Some?
  {
    if v.Some? then Some(Delivered(v.value, last)) else None
  }

  lemma {:induction false} DropAppend(a: string, b: string)
    ensures DropTabsNewlines(a + b) == DropTabsNewlines(a) + DropTabsNewlines(b)
  {
    if a == [] {
      assert a + b == b;
    } else {
      var ab := a + b;
      assert ab[0] == a[0] && ab[1..] == a[1..] + b;
      DropAppend(a[1..], b);
      var rest := DropTabsNewlines(a[1..]) + DropTabsNewlines(b);
      if TabOrNewline(a[0]) {
        assert DropTabsNewlines(ab) == rest;
      } else {
        assert DropTabsNewlines(ab) == [a[0]] + rest;
        assert DropTabsNewlines(a) == [a[0]] + DropTabsNewlines(a[1..]);
      }
    }
  }

  /** Stripping the end of `a + b` stops inside `b` when `a` ends in a visible character. */
  lemma {:induction false} TrimC0EndAppend(a: string, b: string)
    requires a != [] && !C0OrSpace(a[|a| - 1])
    ensures TrimC0End(a + b) == a + TrimC0End(b)
    decreases |b|
  {
    var ab := a + b;
    if b == [] {
      assert ab == a;
    } else {
      assert ab[|ab| - 1] == b[|b| - 1];
      assert ab[..|ab| - 1] == a + b[..|b| - 1];
      if C0OrSpace(b[|b| - 1]) {
        TrimC0EndAppend(a, b[..|b| - 1]);
      }
    }
  }

  lemma {:induction false} DropKeepsPlain(s: string)
    requires Plain(s)
    ensures Plain(DropTabsNewlines(s))
  {
    if s != [] {
      DropKeepsPlain(s[1..]);
    }
  }

  /** What the server reads of a value needs no escaping when the value did not. */
  lemma DeliveredPlain(v: Option<string>, last: bool)
    requires OptionPlain(v)
    ensures OptionPlain(DeliveredOption(v, last))
  {
    if v.Some? {
      var t := if last then TrimC0End(v.value) else v.value;
      assert Plain(t);
      DropKeepsPlain(t);
    }
  }

  lemma PiecesVisible()
    ensures Visible(ListPath + "?page=") && Visible("&limit=")
    ensures Visible("&query=") && Visible("&status=") && Visible("&priority=")
  {
  }

  /** A text ending in a literal piece ends in a visible character. */
  lemma EndsVisible(x: string, piece: string)
    requires Visible(piece)
    ensures x + piece != [] && !C0OrSpace((x + piece)[|x + piece| - 1])
  {
    assert (x + piece)[|x + piece| - 1] == piece[|piece| - 1];
  }

  /** The value that ends the URL is the one that loses its trailing C0 controls and spaces. */
  lemma TrimRequestUrl(page: int, limit: int, query: Option<string>, status: Option<string>,
                       priority: Option<string>)
    ensures TrimC0End(RequestUrl(page, limit, query, status, priority)) ==
      RequestUrl(page, limit, TrimLast(query, status.None? && priority.None?), TrimLast(status, priority.None?),
                 TrimLast(priority, true))
  {
    var base := ListPath + "?page=" + IntToString(page) + "&limit=" + IntToString(limit);
    var withQuery := if query.Some? then base + "&query=" + query.value else base;
    var withStatus := if status.Some? then withQuery + "&status=" + status.value else withQuery;
    PiecesVisible();
    if priority.Some? {
      EndsVisible(withStatus, "&priority=");
      TrimC0EndAppend(withStatus + "&priority=", priority.value);
    } else if status.Some? {
      EndsVisible(withQuery, "&status=");
      TrimC0EndAppend(withQuery + "&status=", status.value);
    } else if query.Some? {
      EndsVisible(base, "&query=");
      TrimC0EndAppend(base + "&query=", query.value);
    } else {
      var l := IntToString(limit);
      IntToStringPlain(limit);
      assert base[|base| - 1] == l[|l| - 1];
      TrimC0EndAppend(base, "");
      assert base + "" == base;
    }
  }

  /** A value with its trailing C0 controls and spaces stripped when it ends the URL. */
  function TrimLast(v: Option<string>, last: bool): (r: Option<string>)
    ensures r.Some? <==> v.Some?
  {
    if v.Some? && last then Some(TrimC0End(v.value)) else v
  }

  /** Removing tabs and newlines from `x + key + value` leaves a literal key in place. */
  lemma DropField(x: string, key: string, value: Option<string>)
    requires NoTabsNewlines(key)
    ensures DropTabsNewlines(if value.Some? then x + key + value.value else x) ==
      if value.Some? then DropTabsNewlines(x) + key + DropTabsNewlines(value.value) else DropTabsNewlines(x)
  {
    if value.Some? {
      DropAppend(x, key);
      DropAppend(x + key, value.value);
    }
  }

  /** The page and limit part of the URL holds no tab or newline. */
  lemma DropBase(pv: string, lv: string)
    requires NoTabsNewlines(pv) && NoTabsNewlines(lv)
    ensures DropTabsNewlines(ListPath + "?page=" + pv + "&limit=" + lv) == ListPath + "?page=" + pv + "&limit=" + lv
  {
    PiecesVisible();
    DropAppend(ListPath + "?page=", pv);
    DropAppend(ListPath + "?page=" + pv, "&limit=");
    DropAppend(ListPath + "?page=" + pv + "&limit=", lv);
  }

  /** Removing tabs and newlines from the URL removes them from each value and touches nothing else. */
  lemma DropRequestUrl(page: int, limit: int, query: Option<string>, status: Option<string>,
                       priority: Option<string>)
    ensures DropTabsNewlines(RequestUrl(page, limit, query, status, priority)) ==
      RequestUrl(page, limit, DropOption(query), DropOption(status), DropOption(priority))
  {
    PiecesVisible();
    IntToStringPlain(page);
    IntToStringPlain(limit);
    var d := DropTabsNewlines;
    var pv, lv := IntToString(page), IntToString(limit);
    var base := ListPath + "?page=" + pv + "&limit=" + lv;
    DropBase(pv, lv);
    DropField(base, "&query=", query);
    var withQuery := if query.Some? then base + "&query=" + query.value else base;
    DropField(withQuery, "&status=", status);
    var withStatus := if status.Some? then withQuery + "&status=" + status.value else withQuery;
    DropField(withStatus, "&priority=", priority);
  }

  function DropOption(v: Option<string>): (r: Option<string>)
    ensures r.Some? <==> v.Some?
  {
    if v.Some? then Some(DropTabsNewlines(v.value)) else None
  }

  /** The URL the browser sends: each value delivered, the last one also stripped at its end. */
  lemma TransmitRequestUrl(page: int, limit: int, query: Option<string>, status: Option<string>,
                           priority: Option<string>)
    ensures Transmit(RequestUrl(page, limit, query, status, priority)) ==
      RequestUrl(page, limit, DeliveredOption(query, status.None? && priority.None?),
                 DeliveredOption(status, priority.None?), DeliveredOption(priority, true))
  {
    var lq, ls := status.None? && priority.None?, priority.None?;
    TrimRequestUrl(page, limit, query, status, priority);
    DropRequestUrl(page, limit, TrimLast(query, lq), TrimLast(status, ls), TrimLast(priority, true));
  }

  /**
   * What `getAllJobs` receives from the page's request: page and limit as
   * rendered, the search text only when non-empty and each filter only when it
   * is not "all", every value without its tabs and newlines, and the value that
   * ends the URL without its trailing C0 controls and spaces.
   */
  lemma ListRequestQuery(page: int, limit: int, query: string, statusFilter: string, priorityFilter: string)
    requires Plain(query) && Plain(statusFilter) && Plain(priorityFilter)
    ensures ToListQuery(QueryParams(Transmit(ListUrl(page, limit, query, statusFilter, priorityFilter)))) ==
      ListQuery(Some(IntToString(page)), Some(IntToString(limit)),
                DeliveredOption(Chosen(priorityFilter), true),
                DeliveredOption(Chosen(statusFilter), priorityFilter == AllOption),
                DeliveredOption(NonEmpty(query), statusFilter == AllOption && priorityFilter == AllOption))
  {
    var q, st, pr := NonEmpty(query), Chosen(statusFilter), Chosen(priorityFilter);
    var lq, ls := st.None? && pr.None?, pr.None?;
    TransmitRequestUrl(page, limit, q, st, pr);
    DeliveredPlain(q, lq);
    DeliveredPlain(st, ls);
    DeliveredPlain(pr, true);
    RequestUrlRoundTrip(page, limit, DeliveredOption(q, lq), DeliveredOption(st, ls), DeliveredOption(pr, true));
    ParamsQuery(page, limit, DeliveredOption(q, lq), DeliveredOption(st, ls), DeliveredOption(pr, true));
  }

  // ---------------------------------------------------------------- run and poll

  /** A job as the page lists it; `id` is absent when the server's JSON has none. */
  datatype Row = Row(id: Option<string>, taskName: string, priority: Priority, status: Status)

  /** The page's state: the listed jobs, the queue of ids being polled and the counters. */
  datatype DashState = DashState(jobs: seq<Row>, runningIds: seq<string>, stats: Stats)

  const IdRequiredToast := "Job id is required"

  /** `!id` for the id a row passes to `handleRunJob`. */
  predicate FalsyId(id: Option<string>)
  {
    id.None? || id.value == ""
  }

  /** The four per-status counters together. */
  function StatusSum(s: Stats): int
  {
    s.pending + s.running + s.completed + s.failed
  }

  /** Every listed job with id `id` gets status `s`; the others are left as they are. */
  function MarkStatus(jobs: seq<Row>, id: string, s: Status): (r: seq<Row>)
    ensures |r| == |jobs|
    ensures forall i :: 0 <= i < |jobs| ==>
      r[i] == if jobs[i].id == Some(id) then jobs[i].(status := s) else jobs[i]
  {
    seq(|jobs|, i requires 0 <= i < |jobs| => if jobs[i].id == Some(id) then jobs[i].(status := s) else jobs[i])
  }

  /**
   * The synchronous part of `handleRunJob(id)`: a falsy id only raises a toast;
   * otherwise the id joins the polling queue and one job moves from pending to
   * running in the counters before the server has answered.
   */
  function StartRun(st: DashState, id: Option<string>): (r: (DashState, Option<string>))
    ensures FalsyId(id) <==> r.1 == Some(IdRequiredToast)
    ensures FalsyId(id) ==> r.0 == st
    ensures !FalsyId(id) ==>
      && r.0.jobs == st.jobs
      && r.0.runningIds == st.runningIds + [id.value]
      && r.0.stats.total == st.stats.total
      && StatusSum(r.0.stats) == StatusSum(st.stats)
      && r.0.stats.pending == st.stats.pending - 1
      && r.0.stats.running == st.stats.running + 1
      && r.0.stats.completed == st.stats.completed
      && r.0.stats.failed == st.stats.failed
  {
    if FalsyId(id) then (st, Some(IdRequiredToast))
    else
      var stats := st.stats.(running := st.stats.running + 1, pending := st.stats.pending - 1);
      (DashState(st.jobs, st.runningIds + [id.value], stats), None)
  }

  /** The server's answer to the run request: only "Job is running" marks the job; anything else is a toast. */
  function ApplyRunReply(st: DashState, id: string, reply: Response<Job>): (r: DashState)
    ensures r.runningIds == st.runningIds && r.stats == st.stats && |r.jobs| == |st.jobs|
    ensures reply.Success? && reply.message == RunningMessage ==> r.jobs == MarkStatus(st.jobs, id, Running)
    ensures !(reply.Success? && reply.message == RunningMessage) ==> r == st
  {
    if reply.Success? && reply.message == RunningMessage then st.(jobs := MarkStatus(st.jobs, id, Running))
    else st
  }

  /** `runningJobIds.filter(x => x !== id)`. */
  function Without(ids: seq<string>, id: string): (r: seq<string>)
    ensures |r| <= |ids|
    ensures forall x :: x in r <==> x in ids && x != id
    ensures multiset(r) == multiset(ids)[id := 0]
  {
    if ids == [] then []
    else
      assert ids == [ids[0]] + ids[1..];
      (if ids[0] == id then [] else [ids[0]]) + Without(ids[1..], id)
  }

  /** The filter works element by element, so it keeps the order of the ids it keeps. */
  lemma {:induction false} WithoutAppend(a: seq<string>, b: seq<string>, id: string)
    ensures Without(a + b, id) == Without(a, id) + Without(b, id)
  {
    if a == [] {
      assert a + b == b;
    } else {
      assert (a + b)[0] == a[0] && (a + b)[1..] == a[1..] + b;
      WithoutAppend(a[1..], b, id);
    }
  }

  /**
   * One polling round (run while the queue is non-empty): the first queued id
   * is fetched; when the server reports it completed, every occurrence leaves
   * the queue, the listed job is marked completed and one job moves from
   * running to completed in the counters.
   */
  function PollTick(st: DashState, reply: Response<Job>): (r: DashState)
    ensures st.runningIds == [] ==> r == st
    ensures r.stats.total == st.stats.total && StatusSum(r.stats) == StatusSum(st.stats)
    ensures |r.jobs| == |st.jobs|
  {
    if st.runningIds == [] then st
    else if reply.Success? && reply.message == FetchedMessage && reply.data.status == Completed then
      var id := st.runningIds[0];
      DashState(MarkStatus(st.jobs, id, Completed), Without(st.runningIds, id),
                st.stats.(running := st.stats.running - 1, completed := st.stats.completed + 1))
    else st
  }

  /** A completed poll removes the polled id and touches only the jobs carrying it. */
  lemma PollCompletes(st: DashState, reply: Response<Job>)
    requires st.runningIds != []
    requires reply.Success? && reply.message == FetchedMessage && reply.data.status == Completed
    ensures var r := PollTick(st, reply); var id := st.runningIds[0];
      && id !in r.runningIds
      && (forall x :: x != id ==> (x in r.runningIds <==> x in st.runningIds))
      && r.stats.running == st.stats.running - 1 && r.stats.completed == st.stats.completed + 1
      && r.stats.pending == st.stats.pending && r.stats.failed == st.stats.failed
      && (forall i :: 0 <= i < |st.jobs| ==>
            (st.jobs[i].id == Some(id) ==> r.jobs[i] == st.jobs[i].(status := Completed))
            && (st.jobs[i].id != Some(id) ==> r.jobs[i] == st.jobs[i]))
  {
  }

  /** Any other poll answer changes nothing, so the id stays queued and is polled again. */
  lemma PollWaits(st: DashState, reply: Response<Job>)
    requires !(reply.Success? && reply.message == FetchedMessage && reply.data.status == Completed)
    ensures PollTick(st, reply) == st
  {
  }

  /** Completing a queue that holds only one id empties it. */
  lemma PollEmptiesQueue(st: DashState, text: string, reply: Response<Job>)
    requires st.runningIds != [] && forall i :: 0 <= i < |st.runningIds| ==> st.runningIds[i] == text
    requires reply.Success? && reply.message == FetchedMessage && reply.data.status == Completed
    ensures PollTick(st, reply).runningIds == []
    ensures PollTick(st, reply).stats == st.stats.(running := st.stats.running - 1, completed := st.stats.completed + 1)
  {
    WithoutAll(st.runningIds, text);
  }

  lemma {:induction false} WithoutAll(ids: seq<string>, id: string)
    requires forall i :: 0 <= i < |ids| ==> ids[i] == id
    ensures Without(ids, id) == []
  {
    if ids != [] {
      WithoutAll(ids[1..], id);
    }
  }

  /** After the backend has run an existing job, fetching it reports it completed. */
  lemma RunEndsCompleted(store: Store, id: nat, started: int, finished: int,
                         webhookUrl: Option<string>, completedAt: string, parse: string -> Option<Value>)
    requires Valid(store) && HasId(store, id)
    ensures var t := RunJob(store, ObjectId(id), started, finished, webhookUrl, completedAt, parse);
      && t.reply.Success? && t.reply.message == RunningMessage
      && var g := GetJobById(t.afterFinish, ObjectId(id));
         g.Success? && g.message == FetchedMessage && g.data.status == Completed
  {
    var t := RunJob(store, ObjectId(id), started, finished, webhookUrl, completedAt, parse);
    var i :| 0 <= i < |store.jobs| && store.jobs[i].id == id;
    RunTransitions(store, id, started, finished, webhookUrl, completedAt, parse, i);
    assert t.afterFinish.jobs[i].id == id;
    assert FindById(t.afterFinish, id) == Some(t.afterFinish.jobs[i]);
  }

  /**
   * Run, the server's reply, and the poll that sees completion: on the
   * backend's own replies, the queue empties and one job has moved from
   * pending to completed in the counters. `text` is the string form of the
   * store id `id` that the page queues and sends; ids are abstracted as
   * `IdParam` values, so the lemma takes the two as given together.
   */
  lemma RunThenPoll(st: DashState, store: Store, id: nat, text: string, started: int, finished: int,
                    webhookUrl: Option<string>, completedAt: string, parse: string -> Option<Value>)
    requires Valid(store) && HasId(store, id) && text != ""
    requires forall i :: 0 <= i < |st.runningIds| ==> st.runningIds[i] == text
    ensures StartRun(st, Some(text)).1.None?
    ensures var s1 := StartRun(st, Some(text)).0;
      var t := RunJob(store, ObjectId(id), started, finished, webhookUrl, completedAt, parse);
      var s3 := PollTick(ApplyRunReply(s1, text, t.reply), GetJobById(t.afterFinish, ObjectId(id)));
      && s3.runningIds == []
      && s3.stats == st.stats.(pending := st.stats.pending - 1, completed := st.stats.completed + 1)
  {
    var s1 := StartRun(st, Some(text)).0;
    var t := RunJob(store, ObjectId(id), started, finished, webhookUrl, completedAt, parse);
    var g := GetJobById(t.afterFinish, ObjectId(id));
    assert g.Success? && g.message == FetchedMessage && g.data.status == Completed by {
      RunEndsCompleted(store, id, started, finished, webhookUrl, completedAt, parse);
    }
    var s2 := ApplyRunReply(s1, text, t.reply);
    var q := st.runningIds + [text];
    assert s2.runningIds == q && s2.stats == st.stats.(pending := st.stats.pending - 1, running := st.stats.running + 1);
    assert forall i :: 0 <= i < |q| ==> q[i] == text by { AllSameAppend(st.runningIds, text); }
    PollEmptiesQueue(s2, text, g);
  }

  lemma AllSameAppend(xs: seq<string>, x: string)
    requires forall i :: 0 <= i < |xs| ==> xs[i] == x
    ensures forall i :: 0 <= i < |xs + [x]| ==> (xs + [x])[i] == x
  {
  }

  /**
   * A run the server rejects is not rolled back: the counters keep the moved
   * job and the id stays queued.
   */
  lemma RejectedRunKept(st: DashState, id: string, reply: Response<Job>)
    requires id != "" && reply.Failure?
    ensures var r := ApplyRunReply(StartRun(st, Some(id)).0, id, reply);
      && r.stats.pending == st.stats.pending - 1 && r.stats.running == st.stats.running + 1
      && id in r.runningIds
  {
  }

  /**
   * Running the same id twice queues it twice, but completion removes both
   * entries and moves only one job: the running counter stays one above.
   */
  lemma DoubleRunDrift(st: DashState, id: string, reply: Response<Job>)
    requires id != "" && st.runningIds == []
    requires reply.Success? && reply.message == FetchedMessage && reply.data.status == Completed
    ensures var s := StartRun(StartRun(st, Some(id)).0, Some(id)).0;
      var r := PollTick(s, reply);
      && r.runningIds == []
      && r.stats.running == st.stats.running + 1
      && r.stats.pending == st.stats.pending - 2
  {
    var s := StartRun(StartRun(st, Some(id)).0, Some(id)).0;
    assert s.runningIds == [id, id];
    PollEmptiesQueue(s, id, reply);
  }
}
