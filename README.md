# wikibot, modelled in Dafny

This project models the string core of the wikibot (`wiki.py`). Once a day the bot does the following:

- It takes the encyclopedia page named after the date (e.g. `October_05`).
- It draws three lines each from a random subsection of the page's Events, Births and Deaths sections.
- It takes a random article and reads the article name from the URL that Special:Random redirects to.
- It renders everything as a Markdown post with a fixed layout and a closing line of hashtags.

The model has three modules:

- `Text` (`Text.dfy`) models the Python `str` operations the bot uses, for one-character separators:
  - `split` / `join` (`Split`, `Join`), with their round trips `JoinSplit` and `SplitJoin`;
  - `replace(a, b)` (`ReplaceChar`);
  - `replace(c, "")` (`RemoveChar`);
  - `xs[-1]` (`Last`).
- `Wiki` (`Wiki.dfy`) models class `Wiki`:
  - the fact selection of `day_in_history`, where `random.choice` and `random.sample` take their draws as parameters (`Pick`, `Draws`) and their exceptions become `WikiError` values;
  - the `%B_%d` date key of `today_in_history`, with a parser proved to invert it;
  - the last URL segment used by `get_random_page`.
- `WikiBot` (`WikiBot.dfy`) models class `WikiBot`:
  - `format_events`, as a method with the source's loop, proved equal to `RenderEvents`;
  - the pure work of `format_post`: display titles, hashtags, the summary lead and the fixed template;
  - a proof that the post's lines come in the documented order.

The encyclopedia client is modelled as a total function `fetch: string -> RawPage`. A page is plain data: title, full URL, summary, and for each section name the texts of its subsections. The resolved URL of the random-page redirect, and the month and day of "today", are parameters.

## Model

| member | source | states |
|---|---|---|
| Text.Split | wiki.py:14 | `s.split(sep)` is never empty, so `[-1]` on it is always defined |
| Text.SplitPiecesFree | wiki.py:21-23 | no piece of a split contains the separator, so no sampled line contains a line break |
| Text.JoinSplit | wiki.py:14 | joining the pieces of a split with the separator gives back the original string |
| Text.SplitJoin | wiki.py:47 | splitting the join of one or more separator-free pieces gives back exactly those pieces |
| Text.SplitAround | wiki.py:63-75 | the pieces of `x + sep + y` are the pieces of `x` followed by the pieces of `y` |
| Text.LastPieceIsSuffix | wiki.py:14 | the last piece of a split is a suffix of the string; unless it is the whole string, the separator stands right before it |
| Text.Join | wiki.py:47 | no contract of its own: `sep.join(parts)` (also used for the hashtags at wiki.py:62) is pinned down by JoinSplit and SplitJoin (and JoinEndsWithLast) |
| Text.Last | wiki.py:14 | no contract of its own: `xs[-1]` on a non-empty list; its meaning on a split is given by LastPieceIsSuffix |
| Text.ReplaceChar | wiki.py:52 | `replace(a, b)` keeps the length and maps each `a` to `b`, leaving every other character in place |
| Text.RemoveChar | wiki.py:55 | `replace(c, "")` leaves no `c`, keeps the count of every other character, and shortens the string by the number of `c`s |
| Text.RemoveCharSingle | wiki.py:55 | deleting `c` from one character keeps it exactly when it is not `c` |
| Text.RemoveCharConcat | wiki.py:55 | deleting works piece by piece, so the kept characters stay in their original order; with RemoveCharSingle this fixes the result completely |
| Text.RemoveKeepsFree | wiki.py:55 | deleting a character never introduces another one |
| Text.RemoveAfterReplace | wiki.py:52-55 | replacing `_` by a space and then deleting spaces deletes both the underscores and the spaces |
| Wiki.AtDistinctSubMultiset | wiki.py:21-23 | the elements at pairwise distinct positions are a sub-multiset of the population (drawing without replacement) |
| Wiki.Choice | wiki.py:21-23 | `random.choice` succeeds exactly on a non-empty list and returns the element at the drawn index; otherwise it is an `EmptyChoice` error |
| Wiki.Sample | wiki.py:21-23 | `random.sample(pop, k)` succeeds exactly when `k <= len(pop)`; it returns `k` elements at the drawn positions, forming a sub-multiset of `pop`; otherwise it is `SampleTooLarge` with the population size |
| Wiki.ChosenLines | wiki.py:21-23 | no contract of its own: `.text.split("\n")` of the chosen subsection; SampleSection and DayInHistoryShape state what is drawn from it, and SplitPiecesFree that its lines hold no line break |
| Wiki.SampleSection | wiki.py:21-23 | one section's draw succeeds exactly when the section exists, has a subsection, and the chosen subsection splits into at least 3 lines; it then gives 3 newline-free lines at the drawn positions, without replacement; each failure has its own error |
| Wiki.DayInHistory | wiki.py:19-24 | the result is the five items (title, URL, events, births, deaths) exactly when all three draws succeed; draws happen in the order Events, Births, Deaths, and the first failure is the error |
| Wiki.DayInHistoryShape | wiki.py:21-24 | each successful fact list has exactly 3 newline-free entries, drawn without replacement from the lines of its chosen subsection |
| Wiki.MonthName | wiki.py:28 | `%B` is at least 3 characters long and contains no `_` |
| Wiki.TwoDigits | wiki.py:28 | `%d` is two decimal digits whose value is the day |
| Wiki.ParseDateKey | wiki.py:28 | a key that parses gives a valid month (1..12) and day (1..31) |
| Wiki.MonthRoundTrip | wiki.py:28 | the month name determines the month |
| Wiki.MonthNumberNames | wiki.py:28 | every recognised name is the `%B` name of its month |
| Wiki.DateKey | wiki.py:28 | no contract of its own: `strftime("%B_%d")` is pinned down by SplitDateKey, DateKeyRoundTrip and ParseDateKeyExact |
| Wiki.SplitDateKey | wiki.py:28 | the key splits at its single `_` into the month name and the two digits |
| Wiki.DateKeyRoundTrip | wiki.py:28 | parsing the key of a date gives back that date, so distinct dates name distinct pages |
| Wiki.ParseDateKeyExact | wiki.py:28 | every parsable key is the key of the date it parses to |
| Wiki.TodayInHistory | wiki.py:26-29 | the facts succeed exactly when all three sections of the page titled with the day's date key can be drawn; then they carry that page's title and URL and three newline-free lines per list, each drawn without replacement from its chosen subsection; otherwise the error is the first failing section's, in the order Events, Births, Deaths |
| Wiki.RandomPageTitle | wiki.py:14 | the identifier contains no `/`, and is the whole URL when the URL has no `/` |
| Wiki.RandomPageTitleIsLastSegment | wiki.py:14 | the identifier is a suffix of the URL, preceded by `/` unless it is the whole URL |
| Wiki.GetRandomPage | wiki.py:12-17 | the random article is the page fetched under a title that contains no `/`, is a suffix of the URL, and is either the whole URL or preceded by `/` |
| WikiBot.Bullet | wiki.py:46 | no contract of its own: `"- *" + event + "*"`; Bullets and RenderEventsLines state how the bullets make up the list |
| WikiBot.Bullets | wiki.py:45-46 | one bullet per fact, in input order, each `- *fact*` |
| WikiBot.RenderEvents | wiki.py:47 | no contract of its own: the bullets joined by line breaks, pinned down by RenderEventsLines and computed by FormatEvents |
| WikiBot.FormatEvents | wiki.py:43-47 | the loop builds exactly the bullets of the facts in order and joins them with line breaks (`RenderEvents`) |
| WikiBot.RenderEventsLines | wiki.py:43-47 | no facts give `""`; newline-free facts give text whose lines are exactly the bullets (n facts, n lines) and which ends in `*`, with no trailing line break; an empty fact renders as `- **` |
| WikiBot.JoinEndsWithLast | wiki.py:47 | a join of one or more pieces ends with the last piece |
| WikiBot.DisplayTitle | wiki.py:52 | the displayed title has the same length, has a space wherever the title has `_` and no `_` at all, and keeps every other character in place |
| WikiBot.TagDate | wiki.py:52-55 | the date tag is the date with every `_` and every space removed, and contains neither |
| WikiBot.ArticleTag | wiki.py:61-62 | the article tag is the title with every `_`, space and `-` removed, and contains none of them |
| WikiBot.HashtagLine | wiki.py:62 | the hashtag line is `#wikipedia #<date tag> #<article tag>` |
| WikiBot.HashtagLineTags | wiki.py:62 | the hashtag line contains exactly two spaces and splits at them into the three tags |
| WikiBot.FirstBreak | wiki.py:60 | the first `\n\n` at or after a position, or the length when there is none |
| WikiBot.SummaryLead | wiki.py:60 | the lead is a prefix of the summary with no `\n\n` starting inside it, and it ends at the first `\n\n` or at the end |
| WikiBot.SummaryLeadNoBreak | wiki.py:60 | the lead is the whole summary when there is no `\n\n`, and it never contains `\n\n` |
| WikiBot.SummaryLeadFirstParagraph | wiki.py:60 | any prefix of the summary that has no `\n\n` starting inside it and stops at the first break or at the end is the lead |
| WikiBot.HeadingLine | wiki.py:64 | no contract of its own: `# [<display date>](<date url>)`; RenderPost and FormatPost state that the post starts with it, and HeadingLineFree that it is one line for single-line inputs |
| WikiBot.ArticleLine | wiki.py:72 | no contract of its own: `### [<display title>](<url>)`; PostLines and FormatPost place it right after the article caption, and ArticleLineFree makes it one line for single-line inputs |
| WikiBot.PostTemplate | wiki.py:63-75 | the post starts with the heading line and a line break, and ends with a line break and the hashtag line |
| WikiBot.RenderPost | wiki.py:52-75 | the post starts with `# [<date with spaces>](<date url>)` and a line break, and ends with a line break and the hashtag line, with nothing after it |
| WikiBot.FormatPost | wiki.py:49-75 | a post exists exactly when the day's facts can be drawn, and otherwise it fails with the draw's error. A post starts with the heading linking the date page and ends with a line break and the hashtag line for the date page and the article named by the URL's last segment. Each block has exactly 3 bullets. With single-line titles and URLs, its lines are exactly `PostLineList`: heading, events caption, 3 event bullets, blank, births caption, 3 birth bullets, blank, deaths caption, 3 death bullets, blank, article caption, article heading, quoted lead, hashtags |
| WikiBot.FactPostLines | wiki.py:43-75 | with non-empty, single-line fact lists and single-line titles and URLs, the rendered post's lines are the heading, the captioned bullet blocks each followed by a blank line, the article lines and the hashtag line (`PostLineList`) |
| WikiBot.TemplateLines | wiki.py:63-75 | the template's lines in order are: heading; `**This day in history**:`; the event lines; blank; `**Births:**`; the birth lines; blank; `**Deaths:**`; the death lines; blank; `**Random Article of the day:**`; the article heading; the quote lines; the hashtag line |
| WikiBot.PostLines | wiki.py:63-75 | for single-line titles and URLs, the post's lines are: the heading, the three captioned fact blocks each followed by a blank line, the article heading, the quoted lead, and the hashtag line last |

## Left out

- Mastodon login and `status_post` (wiki.py:40-41, 77-80): these are network calls. `post` and its `print` are not modelled.
- `wikipediaapi` and `section_by_title` (wiki.py:10, 16, 20): a foreign library. A page is plain data, fetching is the parameter `fetch`, and the AttributeError that Python raises for a missing section becomes the `MissingSection` error value rather than an exception.
- `requests.get` on Special:Random (wiki.py:13): network I/O. Only the split of the resolved URL is modelled.
- Loading `config.toml` (wiki.py:33-38): file I/O, and none of its values reaches the modelled code.
- `datetime.now()` (wiki.py:27): the month and day are parameters.
- The `random` module as a source of entropy (wiki.py:21-23): draws are parameters. `PickFits` states what `random.choice` and `random.sample` guarantee of their draws: indices in range and pairwise distinct sample positions.
- Wiki.ValidDate: days are 1..31 for every month. It does not follow the real calendar, because the model takes the date as given rather than from a clock.
- Wiki.MonthName: `%B` is modelled for the English/C locale only.
- The text of sections and summaries as returned by the client library (markup stripping etc.) is taken as given.
- Facts come from one randomly chosen subsection of each section, and the sample size is the literal 3 (wiki.py:21-23).
- WikiBot.FormatPost, WikiBot.FactPostLines, WikiBot.PostLines and WikiBot.TemplateLines: the line structure is proved only when the date title, article title and URLs contain no line break. Fact lines and the lead may contain any text.
