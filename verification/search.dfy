/** The people search page (`Search`): when a query is sent, what it asks
    for, and which message the page shows. */
module Search {
  import opened Wrappers
  import opened Text

  datatype Profile = Profile(id: string, username: Option<string>, fullName: Option<string>, avatarUrl: Option<string>)

  datatype Page = Page(query: string, results: seq<Profile>, searching: bool)

  /** The profile query: `username` or `full_name` matching `%pattern%`
      without regard to case, at most `limit` rows. */
  datatype ProfileQuery = ProfileQuery(pattern: string, limit: nat)

  const MinQueryLength := 2
  const ResultLimit := 20

  /** `handleSearch` up to the query: the input is shown as typed; a query
      whose trimmed form is shorter than two UTF-16 code units clears the results and
      sends nothing; otherwise the untrimmed text is sent. */
  function Typed(p: Page, input: string): (r: (Page, Option<ProfileQuery>))
    ensures r.0.query == input
    ensures r.1.None? <==> Utf16Length(Trim(input)) < MinQueryLength
    ensures r.1.None? ==> r.0 == p.(query := input, results := [])
    ensures r.1.Some? ==> r.0 == p.(query := input, searching := true) && r.1.value == ProfileQuery(input, ResultLimit)
  {
    if Utf16Length(Trim(input)) < MinQueryLength then (p.(query := input, results := []), None)
    else (p.(query := input, searching := true), Some(ProfileQuery(input, ResultLimit)))
  }

  /** A single character outside the Basic Multilingual Plane is two code
      units long, so on its own it is already searched for. */
  lemma AstralCharacterIsSearched(p: Page, c: char)
    requires !InBmp(c)
    ensures Typed(p, [c]).1 == Some(ProfileQuery([c], ResultLimit))
  {
    assert !IsSpace(c);
    assert TrimStart([c]) == [c];
    assert TrimEnd([c]) == [c];
  }

  const SearchFailed := "Fehler bei der Suche"

  /** The query settles: the results become the rows found (`[]` for none)
      and stay as they were on error, which is reported with its message (or a
      generic one when that is empty); `searching` ends either way. */
  function Answered(p: Page, answer: Result<Option<seq<Profile>>, string>): (r: (Page, Option<string>))
    ensures !r.0.searching && r.0.query == p.query
    ensures answer.Ok? ==> r.0.results == answer.value.GetOr([]) && r.1.None?
    ensures answer.Err? ==> r.0.results == p.results && r.1.Some?
    ensures answer.Err? && answer.error != "" ==> r.1 == Some(answer.error)
    ensures answer.Err? && answer.error == "" ==> r.1 == Some(SearchFailed)
  {
    match answer
    case Ok(rows) => (p.(results := rows.GetOr([]), searching := false), None)
    case Err(e) => (p.(searching := false), Some(if e != "" then e else SearchFailed))
  }

  /** A search that comes back empty shows "no results"; one that fails keeps
      showing the previous list. */
  lemma EmptyAnswerShowsNoResults(p: Page, input: string, answer: Result<Option<seq<Profile>>, string>)
    requires Utf16Length(Trim(input)) >= MinQueryLength
    ensures answer.Ok? && answer.value.GetOr([]) == [] ==>
              MessageOf(Answered(Typed(p, input).0, answer).0) == NoResults
    ensures answer.Err? && p.results != [] ==>
              MessageOf(Answered(Typed(p, input).0, answer).0) == ResultList(p.results)
  {
  }

  /** What the result area shows. */
  datatype Message = Searching | TypeMore | NoResults | ResultList(profiles: seq<Profile>)

  /** The result area, by precedence: a running search, then the hint for a
      short query, then "no results", then the list. */
  function MessageOf(p: Page): (m: Message)
    ensures m == Searching <==> p.searching
    ensures m == TypeMore <==> !p.searching && Utf16Length(Trim(p.query)) < MinQueryLength
    ensures m == NoResults <==> !p.searching && Utf16Length(Trim(p.query)) >= MinQueryLength && p.results == []
    ensures m.ResultList? ==> m.profiles == p.results && m.profiles != []
  {
    if p.searching then Searching
    else if Utf16Length(Trim(p.query)) < MinQueryLength then TypeMore
    else if p.results == [] then NoResults
    else ResultList(p.results)
  }

  /** Typing a short query while no search runs shows the hint, and whitespace
      around a single character does not count. */
  lemma ShortQueryShowsHint(p: Page, input: string)
    requires !p.searching && Utf16Length(Trim(input)) < MinQueryLength
    ensures MessageOf(Typed(p, input).0) == TypeMore
    ensures Typed(p, input).1.None?
  {
  }

  /** `handleProfileClick`: `/profile/<username>`, only for a non-empty username. */
  function ProfileClick(username: Option<string>): (r: Option<string>)
    ensures r.Some? <==> username.Some? && username.value != ""
    ensures r.Some? ==> r.value == "/profile/" + username.value
  {
    if username.Some? && username.value != "" then Some("/profile/" + username.value) else None
  }
}
