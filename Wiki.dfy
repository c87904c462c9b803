/**
  The encyclopedia side of the bot (class `Wiki` in wiki.py): choosing the
  "this day in history" facts from a date page, the `%B_%d` key that names
  that page, and the page identifier taken from the random-article URL.

  The encyclopedia client is a parameter: a page is plain data, and fetching
  is a total function from title to page (the client library hands back a
  page object for any title; a title with no such page simply has no sections).
  The random module is replaced by explicit draws (`Pick`).
 */
module Wiki {
  import opened Text

  /** A fetched page: its title, full URL, summary, and for every top-level
      section title the texts of that section's subsections, in page order. */
  datatype RawPage = RawPage(
    title: string,
    fullUrl: string,
    summary: string,
    sections: map<string, seq<string>>)

  /** What `day_in_history` returns: the five items of its result list, in order. */
  datatype DayFacts = DayFacts(
    title: string,
    url: string,
    events: seq<string>,
    births: seq<string>,
    deaths: seq<string>)

  /** The exceptions the fact selection can raise. */
  datatype WikiError =
    | MissingSection(section: string)        // section_by_title gave None: AttributeError on `.sections`
    | EmptyChoice(section: string)           // random.choice on no subsections: IndexError
    | SampleTooLarge(section: string, population: nat)  // random.sample(lines, 3) on fewer lines: ValueError

  datatype Result<T> = Ok(value: T) | Err(error: WikiError)

  /** How many facts of each kind a post carries (the literal 3 of each `random.sample` call). */
  const SampleSize: nat := 3

  const EventsSection: string := "Events"
  const BirthsSection: string := "Births"
  const DeathsSection: string := "Deaths"

  /** The random draws for one section: the index `random.choice` picks among the
      subsections, and the positions `random.sample` picks, in drawing order. */
  datatype Pick = Pick(subsection: nat, positions: seq<nat>)

  /** The draws for the three sections, in the order the source makes them. */
  datatype Draws = Draws(events: Pick, births: Pick, deaths: Pick)

  /** Positions that are in range for a population of `n` and pairwise distinct. */
  predicate DistinctPositions(positions: seq<nat>, n: nat)
  {
    (forall t :: 0 <= t < |positions| ==> positions[t] < n) &&
    (forall s, t :: 0 <= s < t < |positions| ==> positions[s] != positions[t])
  }

  /** The elements at the given positions, in drawing order. */
  function At<T>(population: seq<T>, positions: seq<nat>): (r: seq<T>)
    requires forall t :: 0 <= t < |positions| ==> positions[t] < |population|
    ensures |r| == |positions|
    ensures forall t :: 0 <= t < |positions| ==> r[t] == population[positions[t]]
  {
    seq(|positions|, t requires 0 <= t < |positions| => population[positions[t]])
  }

  /** Drawing at distinct positions never takes an element more often than it occurs:
      the draw is a sub-multiset of the population (sampling without replacement). */
  lemma {:induction false} AtDistinctSubMultiset<T>(population: seq<T>, positions: seq<nat>)
    requires DistinctPositions(positions, |population|)
    ensures multiset(At(population, positions)) <= multiset(population)
    decreases |positions|
  {
    if positions != [] {
      var n := |positions| - 1;
      var m := positions[n];
      var rest := population[..m] + population[m + 1..];
      var shifted := seq(n, t requires 0 <= t < n => if positions[t] < m then positions[t] else positions[t] - 1);
      forall t | 0 <= t < n
        ensures shifted[t] < |rest| && rest[shifted[t]] == population[positions[t]]
      {
        assert positions[t] != m;
      }
      assert DistinctPositions(shifted, |rest|) by {
        forall s, t | 0 <= s < t < n ensures shifted[s] != shifted[t] {
          assert positions[s] != m && positions[t] != m && positions[s] != positions[t];
        }
      }
      AtDistinctSubMultiset(rest, shifted);
      assert At(population, positions) == At(rest, shifted) + [population[m]];
      assert population == population[..m] + [population[m]] + population[m + 1..];
      assert multiset(population) == multiset(rest) + multiset{population[m]};
    }
  }

  /** Python's `random.choice(xs)` with the drawn index `i`. */
  function Choice<T>(xs: seq<T>, i: nat, section: string): (r: Result<T>)
    requires |xs| > 0 ==> i < |xs|
    ensures r.Ok? <==> |xs| > 0
    ensures r.Ok? ==> r.value == xs[i] && r.value in xs
    ensures r.Err? ==> r.error == EmptyChoice(section)
  {
    if |xs| == 0 then Err(EmptyChoice(section)) else Ok(xs[i])
  }

  /** Python's `random.sample(population, k)` with the drawn positions. */
  function Sample<T>(population: seq<T>, k: nat, positions: seq<nat>, section: string): (r: Result<seq<T>>)
    requires k <= |population| ==> |positions| == k && DistinctPositions(positions, |population|)
    ensures r.Ok? <==> k <= |population|
    ensures r.Ok? ==> |r.value| == k && multiset(r.value) <= multiset(population)
    ensures r.Ok? ==> forall t :: 0 <= t < k ==> r.value[t] == population[positions[t]]
    ensures r.Err? ==> r.error == SampleTooLarge(section, |population|)
  {
    if k > |population| then Err(SampleTooLarge(section, |population|))
    else
      AtDistinctSubMultiset(population, positions);
      Ok(At(population, positions))
  }

  /** The lines of the chosen subsection of section `name` (`.text.split("\n")`). */
  function ChosenLines(page: RawPage, name: string, p: Pick): seq<string>
    requires name in page.sections && p.subsection < |page.sections[name]|
  {
    Split(page.sections[name][p.subsection], '\n')
  }

  /** What the random module guarantees of its draws for section `name`: the subsection
      index is in range whenever there is a subsection, and the sample positions are
      distinct and in range whenever the chosen subsection has enough lines. */
  predicate PickFits(page: RawPage, name: string, p: Pick)
  {
    name in page.sections && |page.sections[name]| > 0 ==>
      p.subsection < |page.sections[name]| &&
      (SampleSize <= |ChosenLines(page, name, p)| ==>
         |p.positions| == SampleSize && DistinctPositions(p.positions, |ChosenLines(page, name, p)|))
  }

  predicate DrawsFit(page: RawPage, d: Draws)
  {
    PickFits(page, EventsSection, d.events) &&
    PickFits(page, BirthsSection, d.births) &&
    PickFits(page, DeathsSection, d.deaths)
  }

  /** Whether the facts of section `name` can be drawn at all. */
  predicate Samplable(page: RawPage, name: string, p: Pick)
    requires PickFits(page, name, p)
  {
    name in page.sections && |page.sections[name]| > 0 &&
    SampleSize <= |ChosenLines(page, name, p)|
  }

  /** One line of `day_in_history`:
      `random.sample(random.choice(page.section_by_title(name).sections).text.split("\n"), 3)`. */
  function SampleSection(page: RawPage, name: string, p: Pick): (r: Result<seq<string>>)
    requires PickFits(page, name, p)
    ensures r.Ok? <==> Samplable(page, name, p)
    ensures r.Ok? ==>
      var lines := ChosenLines(page, name, p);
      |r.value| == SampleSize &&
      multiset(r.value) <= multiset(lines) &&
      (forall t :: 0 <= t < SampleSize ==> r.value[t] == lines[p.positions[t]]) &&
      (forall t :: 0 <= t < SampleSize ==> Free(r.value[t], '\n'))
    ensures name !in page.sections ==> r == Err(MissingSection(name))
    ensures name in page.sections && |page.sections[name]| == 0 ==> r == Err(EmptyChoice(name))
    ensures name in page.sections && |page.sections[name]| > 0 && !Samplable(page, name, p) ==>
      r == Err(SampleTooLarge(name, |ChosenLines(page, name, p)|))
  {
    if name !in page.sections then Err(MissingSection(name))
    else
      match Choice(page.sections[name], p.subsection, name)
      case Err(e) => Err(e)
      case Ok(text) =>
        var lines := Split(text, '\n');
        assert lines == ChosenLines(page, name, p);
        SplitPiecesFree(text, '\n');
        Sample(lines, SampleSize, p.positions, name)
  }

  /** `Wiki.day_in_history` on the fetched date page: events, births and deaths are
      drawn in that order, and the first draw that fails aborts the whole call. */
  function DayInHistory(page: RawPage, d: Draws): (r: Result<DayFacts>)
    requires DrawsFit(page, d)
    ensures r.Ok? <==>
      Samplable(page, EventsSection, d.events) &&
      Samplable(page, BirthsSection, d.births) &&
      Samplable(page, DeathsSection, d.deaths)
    ensures r.Ok? ==>
      r.value.title == page.title && r.value.url == page.fullUrl &&
      r.value.events == SampleSection(page, EventsSection, d.events).value &&
      r.value.births == SampleSection(page, BirthsSection, d.births).value &&
      r.value.deaths == SampleSection(page, DeathsSection, d.deaths).value
    ensures !Samplable(page, EventsSection, d.events) ==>
      r == Err(SampleSection(page, EventsSection, d.events).error)
    ensures Samplable(page, EventsSection, d.events) && !Samplable(page, BirthsSection, d.births) ==>
      r == Err(SampleSection(page, BirthsSection, d.births).error)
    ensures (Samplable(page, EventsSection, d.events) && Samplable(page, BirthsSection, d.births) &&
      !Samplable(page, DeathsSection, d.deaths)) ==>
      r == Err(SampleSection(page, DeathsSection, d.deaths).error)
  {
    match SampleSection(page, EventsSection, d.events)
    case Err(e) => Err(e)
    case Ok(events) =>
      match SampleSection(page, BirthsSection, d.births)
      case Err(e) => Err(e)
      case Ok(births) =>
        match SampleSection(page, DeathsSection, d.deaths)
        case Err(e) => Err(e)
        case Ok(deaths) => Ok(DayFacts(page.title, page.fullUrl, events, births, deaths))
  }

  /** Every fact list of a successful `day_in_history` has exactly three entries,
      none containing a line break, drawn without replacement from the lines of one
      subsection of its section. */
  lemma DayInHistoryShape(page: RawPage, d: Draws)
    requires DrawsFit(page, d)
    requires DayInHistory(page, d).Ok?
    ensures var day := DayInHistory(page, d).value;
      |day.events| == |day.births| == |day.deaths| == SampleSize &&
      (forall t :: 0 <= t < SampleSize ==>
         Free(day.events[t], '\n') && Free(day.births[t], '\n') && Free(day.deaths[t], '\n')) &&
      multiset(day.events) <= multiset(ChosenLines(page, EventsSection, d.events)) &&
      multiset(day.births) <= multiset(ChosenLines(page, BirthsSection, d.births)) &&
      multiset(day.deaths) <= multiset(ChosenLines(page, DeathsSection, d.deaths))
  {
  }

  // ---------------------------------------------------------------------------
  // The date key: `datetime.strftime("%B_%d")`

  /** `%B` in the C/English locale. */
  function MonthName(month: nat): (name: string)
    requires 1 <= month <= 12
    ensures |name| >= 3 && Free(name, '_')
  {
    ["January", "February", "March", "April", "May", "June", "July",
     "August", "September", "October", "November", "December"][month - 1]
  }

  /** The month whose `%B` name is `name`, if any. */
  function MonthNumber(name: string): (month: nat)
    ensures month <= 12
  {
    if name == "January" then 1 else if name == "February" then 2
    else if name == "March" then 3 else if name == "April" then 4
    else if name == "May" then 5 else if name == "June" then 6
    else if name == "July" then 7 else if name == "August" then 8
    else if name == "September" then 9 else if name == "October" then 10
    else if name == "November" then 11 else if name == "December" then 12
    else 0
  }

  function DigitChar(d: nat): char
    requires d < 10
  {
    ('0' as int + d) as char
  }

  predicate IsDigit(c: char)
  {
    '0' <= c <= '9'
  }

  function DigitValue(c: char): nat
    requires IsDigit(c)
  {
    c as int - '0' as int
  }

  /** `%d`: the day of the month as two decimal digits, zero-padded. */
  function TwoDigits(n: nat): (s: string)
    requires n < 100
    ensures |s| == 2 && IsDigit(s[0]) && IsDigit(s[1])
    ensures DigitValue(s[0]) * 10 + DigitValue(s[1]) == n
  {
    [DigitChar(n / 10), DigitChar(n % 10)]
  }

  predicate ValidDate(month: nat, day: nat)
  {
    1 <= month <= 12 && 1 <= day <= 31
  }

  /** `today.strftime("%B_%d")`, the title of the date page (`October_05`). */
  function DateKey(month: nat, day: nat): (key: string)
    requires ValidDate(month, day)
  {
    MonthName(month) + "_" + TwoDigits(day)
  }

  /** Reads a date key back: the inverse of `DateKey`. */
  function ParseDateKey(key: string): (r: Option<(nat, nat)>)
    ensures r.Some? ==> ValidDate(r.value.0, r.value.1)
  {
    var parts := Split(key, '_');
    if |parts| != 2 then None
    else
      var month := MonthNumber(parts[0]);
      var digits := parts[1];
      if month == 0 || |digits| != 2 || !IsDigit(digits[0]) || !IsDigit(digits[1]) then None
      else
        var day := DigitValue(digits[0]) * 10 + DigitValue(digits[1]);
        if 1 <= day <= 31 then Some((month, day)) else None
  }

  datatype Option<T> = None | Some(value: T)

  lemma MonthRoundTrip(month: nat)
    requires 1 <= month <= 12
    ensures MonthNumber(MonthName(month)) == month
  {
  }

  lemma MonthNumberNames(name: string)
    requires MonthNumber(name) != 0
    ensures MonthName(MonthNumber(name)) == name
  {
  }

  /** The key splits at its one underscore into the month name and the two digits. */
  lemma SplitDateKey(month: nat, day: nat)
    requires ValidDate(month, day)
    ensures Split(DateKey(month, day), '_') == [MonthName(month), TwoDigits(day)]
  {
    var name, digits := MonthName(month), TwoDigits(day);
    assert DateKey(month, day) == name + ['_'] + digits;
    SplitAround(name, '_', digits);
    SplitFree(name, '_');
    SplitFree(digits, '_');
  }

  /** The date key determines the date: parsing it gives back month and day,
      so distinct dates name distinct pages. */
  lemma {:induction false} DateKeyRoundTrip(month: nat, day: nat)
    requires ValidDate(month, day)
    ensures ParseDateKey(DateKey(month, day)) == Some((month, day))
  {
    SplitDateKey(month, day);
    MonthRoundTrip(month);
  }

  /** Every key that parses is the key of the date it parses to: `ParseDateKey`
      accepts exactly the strings `DateKey` produces. */
  lemma {:induction false} ParseDateKeyExact(key: string)
    requires ParseDateKey(key).Some?
    ensures var (month, day) := ParseDateKey(key).value; DateKey(month, day) == key
  {
    var parts := Split(key, '_');
    var (month, day) := ParseDateKey(key).value;
    MonthNumberNames(parts[0]);
    var digits := parts[1];
    assert TwoDigits(day) == digits;
    JoinSplit(key, '_');
    assert Join(parts, '_') == parts[0] + ['_'] + Join(parts[1..], '_');
    assert parts[1..] == [digits];
  }

  /** `Wiki.today_in_history` on a given date: the facts come from the page whose
      title is the date key of that day. */
  function TodayInHistory(month: nat, day: nat, fetch: string -> RawPage, d: Draws): (r: Result<DayFacts>)
    requires ValidDate(month, day)
    requires DrawsFit(fetch(DateKey(month, day)), d)
    ensures var page := fetch(DateKey(month, day));
      r.Ok? <==>
        Samplable(page, EventsSection, d.events) &&
        Samplable(page, BirthsSection, d.births) &&
        Samplable(page, DeathsSection, d.deaths)
    ensures var page := fetch(DateKey(month, day));
      r.Ok? ==>
        r.value.title == page.title && r.value.url == page.fullUrl &&
        |r.value.events| == |r.value.births| == |r.value.deaths| == SampleSize &&
        (forall t :: 0 <= t < SampleSize ==>
           Free(r.value.events[t], '\n') && Free(r.value.births[t], '\n') && Free(r.value.deaths[t], '\n')) &&
        multiset(r.value.events) <= multiset(ChosenLines(page, EventsSection, d.events)) &&
        multiset(r.value.births) <= multiset(ChosenLines(page, BirthsSection, d.births)) &&
        multiset(r.value.deaths) <= multiset(ChosenLines(page, DeathsSection, d.deaths))
    ensures var page := fetch(DateKey(month, day));
      !Samplable(page, EventsSection, d.events) ==>
        r == Err(SampleSection(page, EventsSection, d.events).error)
    ensures var page := fetch(DateKey(month, day));
      Samplable(page, EventsSection, d.events) && !Samplable(page, BirthsSection, d.births) ==>
        r == Err(SampleSection(page, BirthsSection, d.births).error)
    ensures var page := fetch(DateKey(month, day));
      (Samplable(page, EventsSection, d.events) && Samplable(page, BirthsSection, d.births) &&
       !Samplable(page, DeathsSection, d.deaths)) ==>
        r == Err(SampleSection(page, DeathsSection, d.deaths).error)
  {
    var page := fetch(DateKey(month, day));
    var r := DayInHistory(page, d);
    if r.Ok? then DayInHistoryShape(page, d); r else r
  }

  // ---------------------------------------------------------------------------
  // The random article: `response.url.split('/')[-1]`

  /** The page identifier in the resolved URL of the random-page redirect:
      the text after its last `/`, or the whole URL when it has none. */
  function RandomPageTitle(resolvedUrl: string): (title: string)
    ensures Free(title, '/')
    ensures Free(resolvedUrl, '/') ==> title == resolvedUrl
  {
    var parts := Split(resolvedUrl, '/');
    SplitPiecesFree(resolvedUrl, '/');
    assert Free(resolvedUrl, '/') ==> parts == [resolvedUrl] by {
      if Free(resolvedUrl, '/') { SplitFree(resolvedUrl, '/'); }
    }
    Last(parts)
  }

  /** The identifier is a suffix of the URL, and either it is the whole URL or
      a `/` stands right before it (so it is exactly what follows the last `/`). */
  lemma RandomPageTitleIsLastSegment(resolvedUrl: string)
    ensures var title := RandomPageTitle(resolvedUrl);
      |title| <= |resolvedUrl| &&
      resolvedUrl[|resolvedUrl| - |title|..] == title &&
      (|title| < |resolvedUrl| ==> resolvedUrl[|resolvedUrl| - |title| - 1] == '/')
  {
    LastPieceIsSuffix(resolvedUrl, '/');
  }

  /** `Wiki.get_random_page`: the page named by the last segment of the resolved URL. */
  function GetRandomPage(resolvedUrl: string, fetch: string -> RawPage): (page: RawPage)
    ensures var title := RandomPageTitle(resolvedUrl);
      page == fetch(title) &&
      Free(title, '/') &&
      |title| <= |resolvedUrl| && resolvedUrl[|resolvedUrl| - |title|..] == title &&
      (|title| < |resolvedUrl| ==> resolvedUrl[|resolvedUrl| - |title| - 1] == '/')
  {
    RandomPageTitleIsLastSegment(resolvedUrl);
    fetch(RandomPageTitle(resolvedUrl))
  }
}
