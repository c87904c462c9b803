/**
  The posting side of the bot (class `WikiBot` in wiki.py): rendering the
  sampled facts as a bullet list, and assembling the Markdown post from the
  date page's facts and the random article.
 */
module WikiBot {
  import opened Text
  import opened Wiki

  // ---------------------------------------------------------------------------
  // format_events

  /** One fact as a Markdown bullet in italics. */
  function Bullet(fact: string): string
  {
    "- *" + fact + "*"
  }

  /** The bullet of every fact, in the order given. */
  function Bullets(facts: seq<string>): (lines: seq<string>)
    ensures |lines| == |facts|
    ensures forall k :: 0 <= k < |facts| ==> lines[k] == Bullet(facts[k])
  {
    seq(|facts|, k requires 0 <= k < |facts| => Bullet(facts[k]))
  }

  /** The text `format_events` returns: the bullets joined by line breaks. */
  function RenderEvents(facts: seq<string>): string
  {
    Join(Bullets(facts), '\n')
  }

  /** `WikiBot.format_events`: builds the list of bullets one fact at a time,
      then joins it with line breaks. */
  method FormatEvents(events: seq<string>) returns (text: string)
    ensures text == RenderEvents(events)
  {
    var updatedEvents: seq<string> := [];
    for i := 0 to |events|
      invariant |updatedEvents| == i
      invariant forall k :: 0 <= k < i ==> updatedEvents[k] == Bullet(events[k])
    {
      updatedEvents := updatedEvents + ["- *" + events[i] + "*"];
    }
    assert updatedEvents == Bullets(events);
    text := Join(updatedEvents, '\n');
  }

  /** The rendered list reads back line by line as the bullets, one per fact in
      the order given, when no fact holds a line break; no facts give the empty
      text; otherwise the text ends with the closing `*` of the last bullet, so
      there is no trailing line break. */
  lemma {:induction false} RenderEventsLines(facts: seq<string>)
    requires forall k :: 0 <= k < |facts| ==> Free(facts[k], '\n')
    ensures facts == [] ==> RenderEvents(facts) == ""
    ensures facts != [] ==> Split(RenderEvents(facts), '\n') == Bullets(facts)
    ensures facts != [] ==> RenderEvents(facts)[|RenderEvents(facts)| - 1] == '*'
    ensures facts == [""] ==> RenderEvents(facts) == "- **"
  {
    if facts != [] {
      var lines := Bullets(facts);
      forall k | 0 <= k < |lines| ensures Free(lines[k], '\n') {
        BulletFree(facts[k]);
      }
      SplitJoin(lines, '\n');
      JoinEndsWithLast(lines, '\n');
    }
  }

  /** A bullet is a single line when its fact is. */
  lemma BulletFree(fact: string)
    requires Free(fact, '\n')
    ensures Free(Bullet(fact), '\n')
  {
  }

  /** The join of non-empty pieces ends with the last piece. */
  lemma {:induction false} JoinEndsWithLast(parts: seq<string>, sep: char)
    requires |parts| >= 1
    ensures |Last(parts)| <= |Join(parts, sep)|
    ensures Join(parts, sep)[|Join(parts, sep)| - |Last(parts)|..] == Last(parts)
    decreases |parts|
  {
    if |parts| > 1 {
      JoinEndsWithLast(parts[1..], sep);
      assert Last(parts[1..]) == Last(parts);
    }
  }

  // ---------------------------------------------------------------------------
  // The pieces format_post derives from the page titles and the summary

  /** `title.replace("_", " ")`: a page title as displayed. */
  function DisplayTitle(title: string): (shown: string)
    ensures Free(shown, '_')
    ensures |shown| == |title|
    ensures forall i :: 0 <= i < |title| && title[i] == '_' ==> shown[i] == ' '
    ensures forall i :: 0 <= i < |title| && title[i] != '_' ==> shown[i] == title[i]
  {
    ReplaceChar(title, '_', ' ')
  }

  /** The date hashtag body: the displayed date with its spaces removed, which
      deletes both the underscores and the spaces of the date key. */
  function TagDate(date: string): (tag: string)
    ensures Free(tag, '_') && Free(tag, ' ')
    ensures tag == RemoveChar(RemoveChar(date, '_'), ' ')
  {
    RemoveAfterReplace(date, '_', ' ');
    RemoveKeepsFree(DisplayTitle(date), ' ', '_');
    RemoveChar(DisplayTitle(date), ' ')
  }

  /** The article hashtag body: the displayed title with spaces and hyphens removed,
      which deletes the underscores, spaces and hyphens of the title. */
  function ArticleTag(title: string): (tag: string)
    ensures Free(tag, '_') && Free(tag, ' ') && Free(tag, '-')
    ensures tag == RemoveChar(RemoveChar(RemoveChar(title, '_'), ' '), '-')
  {
    RemoveAfterReplace(title, '_', ' ');
    var spaced := RemoveChar(DisplayTitle(title), ' ');
    RemoveKeepsFree(DisplayTitle(title), ' ', '_');
    RemoveKeepsFree(spaced, '-', '_');
    RemoveKeepsFree(spaced, '-', ' ');
    RemoveChar(spaced, '-')
  }

  /** The hashtag line: the three tags joined by single spaces. */
  function HashtagLine(date: string, articleTitle: string): (line: string)
    ensures line == "#wikipedia #" + TagDate(date) + " #" + ArticleTag(articleTitle)
  {
    var tags := ["#wikipedia", "#" + TagDate(date), "#" + ArticleTag(articleTitle)];
    JoinThree(tags[0], tags[1], tags[2], ' ');
    Join(tags, ' ')
  }

  lemma JoinThree(a: string, b: string, c: string, sep: char)
    ensures Join([a, b, c], sep) == a + [sep] + b + [sep] + c
  {
    assert [a, b, c][1..] == [b, c];
    assert [b, c][1..] == [c];
    assert Join([b, c], sep) == b + [sep] + c;
    assert Join([a, b, c], sep) == a + [sep] + (b + [sep] + c);
  }

  /** The hashtag line holds exactly two spaces, and splitting it at spaces gives
      back the three tags. */
  lemma HashtagLineTags(date: string, articleTitle: string)
    ensures Count(HashtagLine(date, articleTitle), ' ') == 2
    ensures Split(HashtagLine(date, articleTitle), ' ') ==
      ["#wikipedia", "#" + TagDate(date), "#" + ArticleTag(articleTitle)]
  {
    var a, b, c := "#wikipedia", "#" + TagDate(date), "#" + ArticleTag(articleTitle);
    assert Free(a, ' ');
    FreeConcat("#", TagDate(date), ' ');
    FreeConcat("#", ArticleTag(articleTitle), ' ');
    var tags := [a, b, c];
    assert forall k :: 0 <= k < |tags| ==> Free(tags[k], ' ');
    JoinThree(a, b, c, ' ');
    SplitJoin(tags, ' ');
    CountThree(a, b, c, ' ');
  }

  /** Three separator-free pieces joined by the separator hold it exactly twice. */
  lemma CountThree(a: string, b: string, c: string, sep: char)
    requires Free(a, sep) && Free(b, sep) && Free(c, sep)
    ensures Count(a + [sep] + b + [sep] + c, sep) == 2
  {
    CountFree(a, sep);
    CountFree(b, sep);
    CountFree(c, sep);
    CountConcat(a + [sep] + b + [sep], c, sep);
    CountConcat(a + [sep] + b, [sep], sep);
    CountConcat(a + [sep], b, sep);
    CountConcat(a, [sep], sep);
  }

  /** Two consecutive line breaks start at index `i` of `s`. */
  predicate BreakAt(s: string, i: nat)
  {
    i + 1 < |s| && s[i] == '\n' && s[i + 1] == '\n'
  }

  /** Where the first paragraph break at or after `from` starts, or `|s|` if none. */
  function FirstBreak(s: string, from: nat): (k: nat)
    requires from <= |s|
    ensures from <= k <= |s|
    ensures forall i :: from <= i < k ==> !BreakAt(s, i)
    ensures k < |s| ==> BreakAt(s, k)
    decreases |s| - from
  {
    if from + 1 >= |s| then |s|
    else if BreakAt(s, from) then from
    else FirstBreak(s, from + 1)
  }

  /** `summary.split('\n\n', 1)[0]`: the lead paragraph of an article summary. */
  function SummaryLead(summary: string): (lead: string)
    ensures lead <= summary
    ensures forall i :: 0 <= i < |lead| ==> !BreakAt(summary, i)
    ensures |lead| == |summary| || BreakAt(summary, |lead|)
  {
    summary[..FirstBreak(summary, 0)]
  }

  /** The lead is the whole summary when the summary has no paragraph break, and
      it never contains a paragraph break itself. */
  lemma SummaryLeadNoBreak(summary: string)
    ensures (forall i :: 0 <= i < |summary| ==> !BreakAt(summary, i)) ==> SummaryLead(summary) == summary
    ensures forall i :: 0 <= i < |SummaryLead(summary)| ==> !BreakAt(SummaryLead(summary), i)
  {
    var lead := SummaryLead(summary);
    forall i | 0 <= i < |lead| ensures !BreakAt(lead, i) {
      assert BreakAt(lead, i) ==> BreakAt(summary, i);
    }
  }

  /** The lead is the only prefix of the summary that runs up to the first
      paragraph break: any prefix with the properties of SummaryLead is it. */
  lemma SummaryLeadFirstParagraph(summary: string, other: string)
    requires other <= summary
    requires forall i :: 0 <= i < |other| ==> !BreakAt(summary, i)
    requires |other| == |summary| || BreakAt(summary, |other|)
    ensures other == SummaryLead(summary)
  {
    var lead := SummaryLead(summary);
    if |other| < |lead| {
      assert false;
    } else if |lead| < |other| {
      assert false;
    }
  }

  // ---------------------------------------------------------------------------
  // format_post

  /** The first line of the post: the displayed date linked to its page. */
  function HeadingLine(date: string, dateUrl: string): string
  {
    "# [" + DisplayTitle(date) + "](" + dateUrl + ")"
  }

  /** The line that links the random article. */
  function ArticleLine(article: RawPage): string
  {
    "### [" + DisplayTitle(article.title) + "](" + article.fullUrl + ")"
  }

  /** The captions of the post's four blocks. */
  const EventsCaption: string := "**This day in history**:"
  const BirthsCaption: string := "**Births:**"
  const DeathsCaption: string := "**Deaths:**"
  const ArticleCaption: string := "**Random Article of the day:**"

  /** The fixed template of the post, filled with its variable lines and blocks. */
  function PostTemplate(heading: string, events: string, births: string, deaths: string,
                        articleLine: string, quote: string, tags: string): (post: string)
    ensures heading + "\n" <= post
    ensures EndsWith(post, "\n" + tags)
  {
    heading + "\n" +
    EventsCaption + "\n" +
    events + "\n" + "\n" +
    BirthsCaption + "\n" +
    births + "\n" + "\n" +
    DeathsCaption + "\n" +
    deaths + "\n" + "\n" +
    ArticleCaption + "\n" +
    articleLine + "\n" +
    quote + "\n" +
    tags
  }

  /** The pure part of `WikiBot.format_post`: the Markdown post for the day's
      facts and the random article. It starts with the heading line linking the
      displayed date and ends with a line break and the hashtag line. */
  function RenderPost(day: DayFacts, article: RawPage): (post: string)
    ensures HeadingLine(day.title, day.url) + "\n" <= post
    ensures EndsWith(post, "\n" + HashtagLine(day.title, article.title))
  {
    PostTemplate(
      HeadingLine(day.title, day.url),
      RenderEvents(day.events),
      RenderEvents(day.births),
      RenderEvents(day.deaths),
      ArticleLine(article),
      "> " + SummaryLead(article.summary),
      HashtagLine(day.title, article.title))
  }

  /** `WikiBot.format_post` on a given date and random-page URL: the facts of the
      date page are drawn first, and a failed draw aborts the post with its error.
      Otherwise the post links the date page, renders three bullets per block, and
      closes with the random article (the page named by the URL's last segment),
      its lead and the hashtags. */
  function FormatPost(month: nat, day: nat, resolvedUrl: string, fetch: string -> RawPage, d: Draws)
    : (r: Result<string>)
    requires ValidDate(month, day)
    requires DrawsFit(fetch(DateKey(month, day)), d)
    ensures var facts := TodayInHistory(month, day, fetch, d);
      (r.Ok? <==> facts.Ok?) && (r.Err? ==> r.error == facts.error)
    ensures r.Ok? ==>
      var page, article := fetch(DateKey(month, day)), fetch(RandomPageTitle(resolvedUrl));
      HeadingLine(page.title, page.fullUrl) + "\n" <= r.value &&
      EndsWith(r.value, "\n" + HashtagLine(page.title, article.title))
    ensures r.Ok? ==>
      var page, article := fetch(DateKey(month, day)), fetch(RandomPageTitle(resolvedUrl));
      var facts := TodayInHistory(month, day, fetch, d).value;
      |Bullets(facts.events)| == |Bullets(facts.births)| == |Bullets(facts.deaths)| == SampleSize &&
      (Free(page.title, '\n') && Free(page.fullUrl, '\n') &&
       Free(article.title, '\n') && Free(article.fullUrl, '\n') ==>
         Split(r.value, '\n') == PostLineList(facts, article))
  {
    match TodayInHistory(month, day, fetch, d)
    case Err(e) => Err(e)
    case Ok(facts) =>
      var article := GetRandomPage(resolvedUrl, fetch);
      var post := RenderPost(facts, article);
      assert Free(facts.title, '\n') && Free(facts.url, '\n') &&
             Free(article.title, '\n') && Free(article.fullUrl, '\n') ==>
        Split(post, '\n') == PostLineList(facts, article)
      by {
        if Free(facts.title, '\n') && Free(facts.url, '\n') &&
           Free(article.title, '\n') && Free(article.fullUrl, '\n') {
          FactPostLines(facts, article);
        }
      }
      Ok(post)
  }

  /** The lines a post with single-line facts consists of, in order: the heading,
      each captioned block of one bullet per fact followed by a blank line, the
      article caption and heading, the quoted lead, and the hashtag line. */
  function PostLineList(facts: DayFacts, article: RawPage): seq<string>
  {
    [HeadingLine(facts.title, facts.url), EventsCaption] +
    Bullets(facts.events) + ["", BirthsCaption] +
    Bullets(facts.births) + ["", DeathsCaption] +
    Bullets(facts.deaths) + ["", ArticleCaption, ArticleLine(article)] +
    Split("> " + SummaryLead(article.summary), '\n') +
    [HashtagLine(facts.title, article.title)]
  }

  /** A post of non-empty, single-line fact lists, single-line titles and URLs
      consists of exactly the lines of PostLineList. */
  lemma FactPostLines(facts: DayFacts, article: RawPage)
    requires facts.events != [] && facts.births != [] && facts.deaths != []
    requires forall k :: 0 <= k < |facts.events| ==> Free(facts.events[k], '\n')
    requires forall k :: 0 <= k < |facts.births| ==> Free(facts.births[k], '\n')
    requires forall k :: 0 <= k < |facts.deaths| ==> Free(facts.deaths[k], '\n')
    requires Free(facts.title, '\n') && Free(facts.url, '\n')
    requires Free(article.title, '\n') && Free(article.fullUrl, '\n')
    ensures Split(RenderPost(facts, article), '\n') == PostLineList(facts, article)
  {
    RenderEventsLines(facts.events);
    RenderEventsLines(facts.births);
    RenderEventsLines(facts.deaths);
    PostLines(facts, article);
  }

  /** A separator at the very end splits off an empty last piece. */
  lemma SplitTrailing(x: string, sep: char)
    ensures Split(x + [sep], sep) == Split(x, sep) + [""]
  {
    SplitAround(x, sep, "");
    assert x + [sep] + "" == x + [sep];
  }

  /** Appending a line break and a block appends the block's lines. */
  lemma AppendBlock(p: string, lines: seq<string>, block: string)
    requires Split(p, '\n') == lines
    ensures Split(p + "\n" + block, '\n') == lines + Split(block, '\n')
  {
    SplitAround(p, '\n', block);
  }

  /** Appending a blank line and a single-line label appends `""` and the label. */
  lemma AppendLabel(p: string, lines: seq<string>, caption: string)
    requires Split(p, '\n') == lines && Free(caption, '\n')
    ensures Split(p + "\n" + "\n" + caption, '\n') == lines + ["", caption]
  {
    SplitTrailing(p, '\n');
    SplitAround(p + "\n", '\n', caption);
    SplitFree(caption, '\n');
  }

  /** Appending a blank line, a caption and a line after it appends the three. */
  lemma AppendLabelLine(p: string, lines: seq<string>, caption: string, line: string)
    requires Split(p, '\n') == lines && Free(caption, '\n') && Free(line, '\n')
    ensures Split(p + "\n" + "\n" + caption + "\n" + line, '\n') == lines + ["", caption, line]
  {
    AppendLabel(p, lines, caption);
    AppendLine(p + "\n" + "\n" + caption, lines + ["", caption], line);
    assert lines + ["", caption] + [line] == lines + ["", caption, line];
  }

  /** Appending a line break and a single line appends that line. */
  lemma AppendLine(p: string, lines: seq<string>, line: string)
    requires Split(p, '\n') == lines && Free(line, '\n')
    ensures Split(p + "\n" + line, '\n') == lines + [line]
  {
    AppendBlock(p, lines, line);
    SplitFree(line, '\n');
  }

  /** The captions are single lines. */
  lemma CaptionsFree()
    ensures Free(EventsCaption, '\n') && Free(BirthsCaption, '\n')
    ensures Free(DeathsCaption, '\n') && Free(ArticleCaption, '\n')
  {
  }

  /** The lines of the template, when heading, article line and hashtags are single lines. */
  lemma TemplateLines(heading: string, events: string, births: string, deaths: string,
                      articleLine: string, quote: string, tags: string)
    requires Free(heading, '\n') && Free(articleLine, '\n') && Free(tags, '\n')
    ensures Split(PostTemplate(heading, events, births, deaths, articleLine, quote, tags), '\n') ==
      [heading, EventsCaption] +
      Split(events, '\n') + ["", BirthsCaption] +
      Split(births, '\n') + ["", DeathsCaption] +
      Split(deaths, '\n') + ["", ArticleCaption, articleLine] +
      Split(quote, '\n') + [tags]
  {
    CaptionsFree();
    LayoutLines(heading, EventsCaption, events, BirthsCaption, births, DeathsCaption, deaths,
                ArticleCaption, articleLine, quote, tags);
  }

  /** The lines of the template's layout for any single-line captions. */
  lemma LayoutLines(heading: string, c1: string, events: string, c2: string, births: string,
                    c3: string, deaths: string, c4: string, articleLine: string, quote: string, tags: string)
    requires Free(heading, '\n') && Free(articleLine, '\n') && Free(tags, '\n')
    requires Free(c1, '\n') && Free(c2, '\n') && Free(c3, '\n') && Free(c4, '\n')
    ensures Split(heading + "\n" + c1 + "\n" + events + "\n" + "\n" + c2 + "\n" + births + "\n" + "\n" +
                  c3 + "\n" + deaths + "\n" + "\n" + c4 + "\n" + articleLine + "\n" + quote + "\n" + tags, '\n') ==
      [heading, c1] + Split(events, '\n') + ["", c2] + Split(births, '\n') + ["", c3] +
      Split(deaths, '\n') + ["", c4, articleLine] + Split(quote, '\n') + [tags]
  {
    SplitFree(heading, '\n');
    SplitFree(c1, '\n');
    var p1, l1 := heading + "\n" + c1, [heading, c1];
    SplitAround(heading, '\n', c1);
    var p2, l2 := p1 + "\n" + events, l1 + Split(events, '\n');
    AppendBlock(p1, l1, events);
    var p3, l3 := p2 + "\n" + "\n" + c2, l2 + ["", c2];
    AppendLabel(p2, l2, c2);
    var p4, l4 := p3 + "\n" + births, l3 + Split(births, '\n');
    AppendBlock(p3, l3, births);
    var p5, l5 := p4 + "\n" + "\n" + c3, l4 + ["", c3];
    AppendLabel(p4, l4, c3);
    var p6, l6 := p5 + "\n" + deaths, l5 + Split(deaths, '\n');
    AppendBlock(p5, l5, deaths);
    var p8, l8 := p6 + "\n" + "\n" + c4 + "\n" + articleLine, l6 + ["", c4, articleLine];
    AppendLabelLine(p6, l6, c4, articleLine);
    var p9, l9 := p8 + "\n" + quote, l8 + Split(quote, '\n');
    AppendBlock(p8, l8, quote);
    AppendLine(p9, l9, tags);
  }

  /** A displayed title is a single line when the title is. */
  lemma DisplayTitleFree(title: string)
    requires Free(title, '\n')
    ensures Free(DisplayTitle(title), '\n')
  {
  }

  /** The heading is a single line when the date and its URL are. */
  lemma HeadingLineFree(date: string, dateUrl: string)
    requires Free(date, '\n') && Free(dateUrl, '\n')
    ensures Free(HeadingLine(date, dateUrl), '\n')
  {
  }

  /** The article line is a single line when the title and URL are. */
  lemma ArticleLineFree(article: RawPage)
    requires Free(article.title, '\n') && Free(article.fullUrl, '\n')
    ensures Free(ArticleLine(article), '\n')
  {
  }

  /** The hashtag line is a single line when the date and article title are. */
  lemma HashtagLineFree(date: string, articleTitle: string)
    requires Free(date, '\n') && Free(articleTitle, '\n')
    ensures Free(HashtagLine(date, articleTitle), '\n')
  {
    var td, at := TagDate(date), ArticleTag(articleTitle);
    DisplayTitleFree(date);
    RemoveKeepsFree(DisplayTitle(date), ' ', '\n');
    DisplayTitleFree(articleTitle);
    RemoveKeepsFree(DisplayTitle(articleTitle), ' ', '\n');
    RemoveKeepsFree(RemoveChar(DisplayTitle(articleTitle), ' '), '-', '\n');
    FreeConcat("#wikipedia #", td, '\n');
    FreeConcat("#wikipedia #" + td, " #", '\n');
    FreeConcat("#wikipedia #" + td + " #", at, '\n');
  }

  /** The lines of the post, in order: heading, the three labelled fact blocks each
      followed by a blank line, the article heading, the quoted lead, the hashtags
      (when the titles and URLs are single lines). */
  lemma PostLines(day: DayFacts, article: RawPage)
    requires Free(day.title, '\n') && Free(day.url, '\n')
    requires Free(article.title, '\n') && Free(article.fullUrl, '\n')
    ensures Split(RenderPost(day, article), '\n') ==
      [HeadingLine(day.title, day.url), EventsCaption] +
      Split(RenderEvents(day.events), '\n') + ["", BirthsCaption] +
      Split(RenderEvents(day.births), '\n') + ["", DeathsCaption] +
      Split(RenderEvents(day.deaths), '\n') + ["", ArticleCaption, ArticleLine(article)] +
      Split("> " + SummaryLead(article.summary), '\n') +
      [HashtagLine(day.title, article.title)]
  {
    var h := HeadingLine(day.title, day.url);
    var al := ArticleLine(article);
    var tags := HashtagLine(day.title, article.title);
    HeadingLineFree(day.title, day.url);
    ArticleLineFree(article);
    HashtagLineFree(day.title, article.title);
    TemplateLines(h, RenderEvents(day.events), RenderEvents(day.births), RenderEvents(day.deaths),
                  al, "> " + SummaryLead(article.summary), tags);
  }
}
