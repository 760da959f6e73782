/**
 * The search box (frontend/src/components/SearchQuery.jsx): typed text is
 * trimmed and stripped of everything but ASCII letters, digits and whitespace,
 * shown at once, and handed to the parent's query through a trailing debounce;
 * the clear button empties both.
 */
module SearchQuery {
  import opened Wrappers
  import opened JsText

  /** The characters `/[^a-zA-Z0-9\s]/g` does not remove. */
  predicate Allowed(c: char)
  {
    IsAsciiAlnum(c) || IsWhitespace(c)
  }

  /** `r` can be obtained from `s` by deleting characters. */
  predicate IsSubsequence(r: string, s: string)
    decreases |s|
  {
    if r == [] then true
    else if s == [] then false
    else (r[0] == s[0] && IsSubsequence(r[1..], s[1..])) || IsSubsequence(r, s[1..])
  }

  /** `s.replace(/[^a-zA-Z0-9\s]/g, "")`. */
  function StripDisallowed(s: string): (r: string)
    ensures |r| <= |s|
    ensures forall i :: 0 <= i < |r| ==> Allowed(r[i])
  {
    if s == [] then []
    else (if Allowed(s[0]) then [s[0]] else []) + StripDisallowed(s[1..])
  }

  /** What `onChangeQuery` stores and sends: the trimmed input with disallowed characters removed. */
  function Sanitize(raw: string): (r: string)
    ensures |r| <= |raw|
    ensures forall i :: 0 <= i < |r| ==> Allowed(r[i])
  {
    StripDisallowed(Trim(raw))
  }

  lemma {:induction false} SubsequenceExtendFront(r: string, p: string, t: string)
    requires IsSubsequence(r, t)
    ensures IsSubsequence(r, p + t)
    decreases |p|
  {
    if p == [] {
      assert p + t == t;
    } else if r != [] {
      assert (p + t)[1..] == p[1..] + t;
      SubsequenceExtendFront(r, p[1..], t);
    }
  }

  lemma {:induction false} SubsequenceExtendBack(r: string, t: string, q: string)
    requires IsSubsequence(r, t)
    ensures IsSubsequence(r, t + q)
    decreases |t|
  {
    if r != [] {
      assert (t + q)[1..] == t[1..] + q;
      if r[0] == t[0] && IsSubsequence(r[1..], t[1..]) {
        SubsequenceExtendBack(r[1..], t[1..], q);
      } else {
        SubsequenceExtendBack(r, t[1..], q);
      }
    }
  }

  /** Stripping only deletes characters. */
  lemma {:induction false} StripIsSubsequence(s: string)
    ensures IsSubsequence(StripDisallowed(s), s)
  {
    if s != [] {
      StripIsSubsequence(s[1..]);
      var r := StripDisallowed(s);
      if Allowed(s[0]) {
        assert r[0] == s[0] && r[1..] == StripDisallowed(s[1..]);
      } else if r != [] {
        assert r == StripDisallowed(s[1..]);
      }
    }
  }

  /** Stripping keeps every allowed character, as often as it occurs, and nothing else. */
  lemma {:induction false} StripKeepsAllowed(s: string, c: char)
    ensures multiset(StripDisallowed(s))[c] == if Allowed(c) then multiset(s)[c] else 0
  {
    if s != [] {
      StripKeepsAllowed(s[1..], c);
      assert s == [s[0]] + s[1..];
      assert multiset(s) == multiset([s[0]]) + multiset(s[1..]);
    }
  }

  /** A string of allowed characters is left as it is. */
  lemma {:induction false} StripNoop(s: string)
    requires forall i :: 0 <= i < |s| ==> Allowed(s[i])
    ensures StripDisallowed(s) == s
  {
    if s != [] {
      StripNoop(s[1..]);
    }
  }

  /** The strip step alone is idempotent. */
  lemma StripIdempotent(s: string)
    ensures StripDisallowed(StripDisallowed(s)) == StripDisallowed(s)
  {
    StripNoop(StripDisallowed(s));
  }

  /** The sanitised text is a subsequence of what was typed. */
  lemma SanitizeIsSubsequence(raw: string)
    ensures IsSubsequence(Sanitize(raw), raw)
  {
    var t := Trim(raw);
    var i := |raw| - |TrimStart(raw)|;
    StripIsSubsequence(t);
    SplitAround(raw, t, i);
    SubsequenceExtendFront(Sanitize(raw), raw[..i], t);
    SubsequenceExtendBack(Sanitize(raw), raw[..i] + t, raw[i + |t|..]);
  }

  lemma SplitAround(s: string, t: string, i: int)
    requires OccursAt(t, s, i)
    ensures s == s[..i] + t + s[i + |t|..]
  {
    assert s == s[..i] + s[i..i + |t|] + s[i + |t|..];
  }

  /** A string that neither starts nor ends with whitespace is its own trim. */
  lemma TrimNoop(s: string)
    requires s == [] || (!IsWhitespace(s[0]) && !IsWhitespace(s[|s| - 1]))
    ensures Trim(s) == s
  {
    TrimStartNoop(s);
    TrimEndNoop(s);
  }

  /**
   * Trimming happens before stripping, so stripping can expose whitespace:
   * "! a" becomes " a", and sanitising that again gives "a".
   */
  lemma SanitizeExposesWhitespace()
    ensures Sanitize("! a") == " a"
    ensures Sanitize(Sanitize("! a")) == "a"
  {
    assert Sanitize("! a") == " a" by { BangStripped(); }
    assert Sanitize(" a") == "a" by { SpaceTrimmed(); }
  }

  lemma BangStripped()
    ensures Sanitize("! a") == " a"
  {
    TrimNoop("! a");
    StripLeading('!', ' ', 'a');
  }

  lemma SpaceTrimmed()
    ensures Sanitize(" a") == "a"
  {
    TrimLeadingSpace(' ', 'a');
    StripLeading('!', ' ', 'a');
  }

  /** A disallowed character is dropped; whitespace and letters stay. */
  lemma StripLeading(bad: char, space: char, letter: char)
    requires !Allowed(bad) && IsWhitespace(space) && IsAsciiAlnum(letter)
    ensures StripDisallowed([letter]) == [letter]
    ensures StripDisallowed([space, letter]) == [space, letter]
    ensures StripDisallowed([bad, space, letter]) == [space, letter]
  {
    assert [letter][1..] == [];
    assert [space, letter][1..] == [letter];
    assert [bad, space, letter][1..] == [space, letter];
  }

  lemma TrimLeadingSpace(space: char, letter: char)
    requires IsWhitespace(space) && !IsWhitespace(letter)
    ensures Trim([space, letter]) == [letter]
  {
    var s := [space, letter];
    assert TrimStart(s) == [letter] by {
      assert s[1..] == [letter];
      TrimStartNoop([letter]);
    }
    assert TrimEnd([letter]) == [letter] by {
      TrimEndNoop([letter]);
    }
    assert Trim(s) == TrimEnd(TrimStart(s));
  }

  /**
   * The component's state: the text in the box, the call the debounce timer
   * will make when it fires, and the parent's query.
   */
  datatype SearchState = SearchState(input: string, scheduled: Option<string>, query: string)

  const InitialSearch := SearchState("", None, "")

  /** `onChangeQuery`: show the sanitised text and (re)schedule the debounced call with it. */
  function OnChange(st: SearchState, raw: string): (r: SearchState)
    ensures r.input == Sanitize(raw) && r.scheduled == Some(r.input) && r.query == st.query
  {
    var v := Sanitize(raw);
    SearchState(v, Some(v), st.query)
  }

  /** The debounce timer fires: the last scheduled value becomes the parent's query. */
  function Fire(st: SearchState): (r: SearchState)
    ensures r.scheduled.None? && r.input == st.input
    ensures r.query == if st.scheduled.Some? then st.scheduled.value else st.query
  {
    match st.scheduled
    case None => st
    case Some(v) => st.(scheduled := None, query := v)
  }

  /** `handleClearQuery`: empty the box, set the parent's query to "" and replace any scheduled call with one for "". */
  function Clear(st: SearchState): (r: SearchState)
    ensures r.input == "" && r.query == "" && r.scheduled == Some("")
  {
    SearchState("", Some(""), "")
  }

  /** Once the timer fires after a keystroke, the parent's query is what the box shows. */
  lemma ChangeSettles(st: SearchState, raw: string)
    ensures Fire(OnChange(st, raw)).query == Fire(OnChange(st, raw)).input == Sanitize(raw)
  {
  }

  /** Only the last of several quick keystrokes reaches the parent. */
  lemma LastChangeWins(st: SearchState, a: string, b: string)
    ensures Fire(OnChange(OnChange(st, a), b)).query == Sanitize(b)
  {
  }

  /** Clearing cancels a pending keystroke: before and after the timer fires, both texts are empty. */
  lemma ClearWins(st: SearchState, raw: string)
    ensures var c := Clear(OnChange(st, raw)); c.input == "" && c.query == ""
    ensures var f := Fire(Clear(OnChange(st, raw))); f.input == "" && f.query == ""
  {
  }
}
