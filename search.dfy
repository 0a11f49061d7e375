/** The search screen of components/Search.tsx: the "souls" mode filters the
    known users by name or username, the "web" mode asks an outside
    inspiration service, and three buttons open the query on Google,
    Pinterest or YouTube. The service and the URL encoder are parameters. */
module Search {
  import opened Types
  import opened Strings
  import Seqs

  /** `activeMode`: 'souls' or 'inspiration'. */
  datatype Mode = Souls | Inspiration

  /** What the screen holds; `R` is whatever the inspiration service
      answers with. The loading flag is down again once the answer is in. */
  datatype SearchState<R> = SearchState(mode: Mode, query: string, webResults: Option<R>)

  /** The screen opens in souls mode, with an empty query and no answer. */
  function InitialState<R>(): (s: SearchState<R>)
    ensures s.mode == Souls && s.query == "" && s.webResults == None
  {
    SearchState(Souls, "", None)
  }

  /** The user's lower-cased name or username holds the lower-cased query. */
  predicate Matches(u: User, query: string) {
    Contains(ToLower(u.name), ToLower(query)) || Contains(ToLower(u.username), ToLower(query))
  }

  /** `internalResults`: the users that match, in the order they are known. */
  function InternalResults(users: seq<User>, query: string): (r: seq<User>)
    ensures |r| <= |users|
    ensures forall u :: u in r <==> u in users && Matches(u, query)
    ensures forall u {:trigger multiset(r)[u]} :: multiset(r)[u] == if Matches(u, query) then multiset(users)[u] else 0
  {
    Seqs.Filter(users, (u: User) => Matches(u, query))
  }

  /** The results keep the order of the user list. */
  lemma ResultsKeepListOrder(users: seq<User>, query: string)
    ensures Seqs.IsSubsequence(InternalResults(users, query), users)
  {
    Seqs.FilterIsSubsequence(users, (u: User) => Matches(u, query));
  }

  /** The empty query matches everyone. */
  lemma EmptyQueryMatchesEveryone(users: seq<User>)
    ensures InternalResults(users, "") == users
  {
    forall i | 0 <= i < |users| ensures Matches(users[i], "") {
      ContainsEmpty(ToLower(users[i].name));
      assert ToLower("") == "";
    }
    Seqs.FilterKeepsAll(users, (u: User) => Matches(u, ""));
  }

  /** Whoever matches a query matches every piece of it. */
  lemma MatchesNarrow(u: User, short: string, long: string)
    requires Contains(long, short) && Matches(u, long)
    ensures Matches(u, short)
  {
    ContainsLower(long, short);
    if Contains(ToLower(u.name), ToLower(long)) {
      ContainsTransitive(ToLower(u.name), ToLower(long), ToLower(short));
    } else {
      ContainsTransitive(ToLower(u.username), ToLower(long), ToLower(short));
    }
  }

  /** Typing more can only narrow the results: the results for a longer
      query are those for a piece of it, filtered once more. */
  lemma LongerQueryNarrowsResults(users: seq<User>, short: string, long: string)
    requires Contains(long, short)
    ensures InternalResults(users, long) == Seqs.Filter(InternalResults(users, short), (u: User) => Matches(u, long))
    ensures forall u :: u in InternalResults(users, long) ==> u in InternalResults(users, short)
  {
    forall u: User | Matches(u, long) ensures Matches(u, short) {
      MatchesNarrow(u, short, long);
    }
    Seqs.FilterNarrowing(users, (u: User) => Matches(u, short), (u: User) => Matches(u, long));
  }

  /** `query.trim() === ''`: the souls list shows a prompt instead of the
      results. */
  predicate ShowsPrompt(query: string) {
    IsBlank(query)
  }

  /** The prompt is shown exactly for a query that trims to nothing. It
      covers the empty query, which would otherwise list everyone, and a
      query with any other character shows the results. */
  lemma PromptStandsInForBlankQueries(users: seq<User>, query: string)
    ensures ShowsPrompt(query) <==> Trim(query) == []
    ensures ShowsPrompt("") && InternalResults(users, "") == users
    ensures (exists i :: 0 <= i < |query| && !IsSpace(query[i])) ==> !ShowsPrompt(query)
  {
    BlankIsTrimmedToEmpty(query);
    EmptyQueryMatchesEveryone(users);
  }

  /** `onChange` of the query box: the query is replaced, and in souls mode
      the web answer is dropped. */
  function OnQueryChange<R>(s: SearchState<R>, text: string): (t: SearchState<R>)
    ensures t.query == text && t.mode == s.mode
    ensures t.webResults == (if s.mode == Souls then None else s.webResults)
  {
    if s.mode == Souls then s.(query := text, webResults := None) else s.(query := text)
  }

  /** `handleSearch`: a blank query or souls mode changes nothing; otherwise
      the service's answer for the query is stored. The service is the
      function `inspire`, and its answer is taken to arrive at once. */
  function HandleSearch<R>(s: SearchState<R>, inspire: string -> R): (t: SearchState<R>)
    ensures t.mode == s.mode && t.query == s.query
    ensures IsBlank(s.query) || s.mode == Souls ==> t == s
    ensures !IsBlank(s.query) && s.mode == Inspiration ==> t.webResults == Some(inspire(s.query))
  {
    if IsBlank(s.query) || s.mode == Souls then s else s.(webResults := Some(inspire(s.query)))
  }

  /** In souls mode an edit of the query drops the web answer, and a
      search submitted right after it does not store one. */
  lemma SoulsModeHoldsNoWebAnswer<R>(s: SearchState<R>, text: string, inspire: string -> R)
    requires s.mode == Souls
    ensures HandleSearch(OnQueryChange(s, text), inspire).webResults == None
  {
  }

  /** The three sites of `openExternal`. */
  datatype Platform = Google | Pinterest | YouTube

  /** The part of the address before the encoded query. */
  function SitePrefix(p: Platform): string {
    match p
    case Google => "https://www.google.com/search?q="
    case Pinterest => "https://www.pinterest.com/search/pins/?q="
    case YouTube => "https://www.youtube.com/results?search_query="
  }

  /** The words added after the encoded query. */
  function SiteSuffix(p: Platform): string {
    match p
    case Google => "+aesthetic"
    case Pinterest => ""
    case YouTube => "+mood"
  }

  /** `openExternal`: the address opened for the query, or none for a blank
      query. `encode` stands for `encodeURIComponent`. */
  function OpenExternal(p: Platform, query: string, encode: string -> string): (url: Option<string>)
    ensures url.None? <==> IsBlank(query)
    ensures url.Some? ==> StartsWith(url.value, SitePrefix(p))
    ensures url.Some? ==> |url.value| == |SitePrefix(p)| + |encode(query)| + |SiteSuffix(p)|
    ensures url.Some? ==> url.value[|SitePrefix(p)|..|url.value| - |SiteSuffix(p)|] == encode(query)
    ensures url.Some? ==> url.value[|url.value| - |SiteSuffix(p)|..] == SiteSuffix(p)
  {
    if IsBlank(query) then None
    else
      var url := SitePrefix(p) + encode(query) + SiteSuffix(p);
      assert url[..|SitePrefix(p)|] == SitePrefix(p);
      assert url[|SitePrefix(p)|..|url| - |SiteSuffix(p)|] == encode(query);
      Some(url)
  }

  /** The address names its site: the three platforms never open the same
      address, whatever the queries. */
  lemma PlatformsOpenDifferentSites(p: Platform, q: Platform, a: string, b: string, encode: string -> string)
    requires p != q && OpenExternal(p, a, encode).Some? && OpenExternal(q, b, encode).Some?
    ensures OpenExternal(p, a, encode) != OpenExternal(q, b, encode)
  {
    var u := OpenExternal(p, a, encode).value;
    var v := OpenExternal(q, b, encode).value;
    SiteInitial(p);
    SiteInitial(q);
    assert u[12] == u[..|SitePrefix(p)|][12];
    assert v[12] == v[..|SitePrefix(q)|][12];
  }

  /** The first letter of the site name, just after "https://www.". */
  lemma SiteInitial(p: Platform)
    ensures |SitePrefix(p)| > 12
    ensures SitePrefix(p)[12] == match p case Google => 'g' case Pinterest => 'p' case YouTube => 'y'
  {
  }

  /** With an encoder that can be undone, the query is read back from the
      address. */
  lemma QueryReadBackFromAddress(p: Platform, query: string, encode: string -> string, decode: string -> string)
    requires forall s :: decode(encode(s)) == s
    requires !IsBlank(query)
    ensures var url := OpenExternal(p, query, encode).value;
      decode(url[|SitePrefix(p)|..|url| - |SiteSuffix(p)|]) == query
  {
  }
}
