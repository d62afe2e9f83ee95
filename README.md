# Date archive and version string of widgy_blog, in Dafny

This project models two small pure pieces of the `widgy_blog` Django app.

**The date archive** (`widgy_blog/utils.py`). `date_list_to_archive_list(values)`
takes the publication dates of the posts, newest first as the blog's query
returns them. It builds a list of `Year` groups. Each `Year` is a list of
`Month` groups. Each `Month` is a list of `Day` entries, and each `Day` is a
date that carries the number of posts on that day. Each level is cut with
`itertools.groupby`: on year at the top, on month within each year run, on day
within each month run. `groupby` only cuts the input into maximal runs of
equal keys. It does not sort and does not merge runs that are not adjacent. So
on unsorted input the same year or month can appear more than once. The model
keeps that behaviour and proves it on an example.

- `Day.count` is fixed when the entry is built, as the length of its run.
- `Month.count` and `Year.count` are live sums over the children.
- `Year.date` is 1 January of its year, and `Month.date` is the first of its
  month.
- The month keyword of `Month.get_absolute_url` is the month as two digits.

**The version string** (`widgy_blog/version.py`). `get_version()` joins the
`VERSION` numbers with `.` and appends `-dev` while `STAGE` is `'alpha'`.

Modules:

- `Dates` (dates.dfy) holds the `Date` value of `datetime.date`, its validity,
  chronological order, and the field a level groups on.
- `Decimal` (decimal.dfy) holds Python's `str(n)` and `'{0:02}'.format(n)`
  for `n >= 0`. It also has the reading of a digit string back to its value,
  which both renderings are proved against.
- `Grouping` (groupby.dfy) holds `itertools.groupby` as maximal runs. It
  proves that runs are non-empty, agree with their key and differ from their
  neighbours. It also proves that concatenating the runs gives back the input,
  that the grouping is the only one with these properties, and that each run
  is a contiguous piece of the input.
- `Archive` (archive.dfy) holds `Day`, `Month`, `Year` and
  `date_list_to_archive_list`. Its partner is the flattening of an archive back
  into a date list, with each day's date repeated `count` times. Both round
  trips are proved. Flattening the archive of any input gives that input back.
  Every well-formed archive is the archive of its own flattening.
- `Version` (version.dfy) holds `get_version`. Its partner is the reading of a
  dotted version back into its numbers.

The code nests three `groupby` calls: months are grouped within one year run,
and days within one month run. So a new month group starts at every year
boundary, even when two neighbouring runs share a month number, and the same
holds for days at month boundaries.

## Model

| member | source | states |
|---|---|---|
| `Decimal.NatToString` | widgy_blog/version.py:7 | `str(n)` is a non-empty digit string without a leading zero, and it is one digit exactly when `n < 10` |
| `Decimal.ParseNatToString` | widgy_blog/version.py:7 | reading `str(n)` back gives `n` |
| `Decimal.ZeroPad2` | widgy_blog/utils.py:36 | `'{0:02}'.format(n)` is all digits and reads back as `n`; it is two characters for `n < 10` and `str(n)` otherwise, so exactly two for `n < 100` |
| `Grouping.GroupBy` | widgy_blog/utils.py:48 | `itertools.groupby` as the list of its groups; specified by `GroupByRuns`, `GroupByMaximal`, `GroupByConcat` and `GroupByOfConcat` |
| `Grouping.RunLength` | widgy_blog/utils.py:48 | the first run is non-empty, every element in it has the first element's key, and the element after it has a different key |
| `Grouping.GroupByRuns` | widgy_blog/utils.py:48 | `groupby` yields no group exactly when the input is empty; the first group has the first element's key; no group is empty; every element of a group has the group's key |
| `Grouping.GroupByMaximal` | widgy_blog/utils.py:48 | neighbouring groups have different keys |
| `Grouping.GroupByConcat` | widgy_blog/utils.py:48 | concatenating the groups gives back the input, in order |
| `Grouping.GroupByOfConcat` | widgy_blog/utils.py:48 | grouping the concatenation of non-empty, key-agreeing, neighbour-distinct groups gives back exactly those groups |
| `Grouping.GroupByPiece` | widgy_blog/utils.py:48 | every group is the contiguous piece of the input that starts at some offset |
| `Grouping.GroupByKeepsOrder` | widgy_blog/utils.py:48 | on newest-first input every group is newest first |
| `Grouping.GroupByDescending` | widgy_blog/utils.py:48 | on input whose key never increases the group keys strictly decrease, so each key has one group |
| `Archive.MakeDay` | widgy_blog/utils.py:41-43 | `Day(year, month, day, posts)` is that date with the number of posts as its count; specified by `DayRoundTrip` |
| `Archive.Month.Count` | widgy_blog/utils.py:29-31 | `Month.count`; specified by `MonthCountIsPosts` |
| `Archive.Year.Count` | widgy_blog/utils.py:13-15 | `Year.count`; specified by `YearCountIsPosts` |
| `Archive.MakeMonth` | widgy_blog/utils.py:24-27 | `Month(year, month, days)` has date `(year, month, 1)`; built from a non-empty run it has at least one day, every day has count at least 1 and lies in that year and month, and neighbouring days differ |
| `Archive.MakeYear` | widgy_blog/utils.py:8-11 | `Year(year, months)` has date `(year, 1, 1)`; built from a non-empty run it has at least one well-formed month, all in that year, and neighbouring months differ |
| `Archive.DateListToArchiveList` | widgy_blog/utils.py:47-49 | the archive is well formed (no empty group, neighbouring years differ), it is empty exactly when the input is, and flattening it gives back the input in order |
| `Archive.DayRoundTrip` | widgy_blog/utils.py:41-43 | a `Day` built from a run of one date, repeated `count` times, is that run |
| `Archive.MonthRoundTrip` | widgy_blog/utils.py:24-26 | a `Month` built from dates of that month flattens back to those dates |
| `Archive.YearRoundTrip` | widgy_blog/utils.py:8-10 | a `Year` built from dates of that year flattens back to those dates |
| `Archive.YearsRoundTrip` | widgy_blog/utils.py:47-49 | the years built from the year runs of the input flatten back to the input |
| `Archive.MonthDatesAgree` | widgy_blog/utils.py:25-27 | every post listed under a well-formed month has that month's year and month, and there is at least one |
| `Archive.YearDatesAgree` | widgy_blog/utils.py:9-11 | every post listed under a well-formed year has that year, and there is at least one |
| `Archive.MonthOfFlatten` | widgy_blog/utils.py:24-27 | a well-formed month is what `Month` builds from its own posts |
| `Archive.YearOfFlatten` | widgy_blog/utils.py:8-11 | a well-formed year is what `Year` builds from its own posts |
| `Archive.ArchiveOfFlatten` | widgy_blog/utils.py:47-49 | every well-formed archive is the archive of its own flattening, so the archive is the one well-formed grouping of its input |
| `Archive.MonthCountIsPosts` | widgy_blog/utils.py:29-31 | `Month.count`, the sum of its days' counts, is the number of posts listed under the month |
| `Archive.YearCountIsPosts` | widgy_blog/utils.py:13-15 | `Year.count`, the sum of its months' counts, is the number of posts listed under the year |
| `Archive.ArchiveCountIsPosts` | widgy_blog/utils.py:13-15 | the years' counts add up to the number of posts the archive lists |
| `Archive.TotalCount` | widgy_blog/utils.py:47-49 | the counts of the archive of any input add up to the length of the input |
| `Archive.SortedMonth` | widgy_blog/utils.py:25-26 | a month built from newest-first dates of that month lists its days strictly newest first, each day once |
| `Archive.SortedYear` | widgy_blog/utils.py:9-10 | a year built from newest-first dates of that year lists its months strictly newest first, and each month its days |
| `Archive.SortedArchive` | widgy_blog/utils.py:47-49 | on newest-first input the years, the months of each year and the days of each month strictly decrease, so each appears once |
| `Archive.DayInArchive` | widgy_blog/utils.py:41-43 | the date of every day that counts a post is among the archive's posts |
| `Archive.ArchiveDaysAreInputs` | widgy_blog/utils.py:41-43 | every `Day` of the archive is one of the input dates |
| `Archive.ArchiveDatesValid` | widgy_blog/utils.py:11 | for genuine input dates, every `Year.date` is the genuine date 1 January of its year and every `Month.date` the genuine first of its month |
| `Archive.MonthKeyword` | widgy_blog/utils.py:36 | the month keyword is exactly two digits and reads back as the month |
| `Archive.ExampleSorted` | widgy_blog/utils.py:47-49 | five newest-first dates give two years, the first with two months, and a day of count 2 for the repeated date |
| `Archive.ExampleUnsorted` | widgy_blog/utils.py:47-49 | the input 2024, 2023, 2024 gives three `Year` groups, the year 2024 twice |
| `Version.Join` | widgy_blog/version.py:7 | Python's `sep.join(parts)`; specified by `SplitJoin` |
| `Version.DottedVersion` | widgy_blog/version.py:7 | `'.'.join(map(str, VERSION))`; specified by `ParseDottedVersion`, `DottedVersionDots` and `JoinDigitsDots` |
| `Version.GetVersionOf` | widgy_blog/version.py:6-11 | `get_version()` for a given version and stage; specified by `GetVersionSuffix` and `GetVersionReadsBack` |
| `Version.GetVersion` | widgy_blog/version.py:6-11 | `get_version()` of the package; specified by `CurrentVersion` |
| `Version.SplitJoin` | widgy_blog/version.py:7 | splitting the `.join` of separator-free pieces gives the pieces back |
| `Version.SplitCount` | widgy_blog/version.py:7 | a split has one piece more than the text has separators |
| `Version.ComponentsAreNumbers` | widgy_blog/version.py:7 | every piece of `map(str, VERSION)` is a non-empty decimal number without a dot |
| `Version.ParseDottedVersion` | widgy_blog/version.py:7 | the dotted version of a non-empty version reads back as that version, so distinct versions give distinct strings |
| `Version.DottedVersionDots` | widgy_blog/version.py:7 | the dotted version has `len(VERSION) - 1` dots, and none for an empty version |
| `Version.JoinDigitsDots` | widgy_blog/version.py:7 | the dotted version holds only digits and dots |
| `Version.GetVersionSuffix` | widgy_blog/version.py:6-11 | `get_version()` ends in `-dev` exactly when the stage is `'alpha'`, and without that suffix it is the dotted version |
| `Version.GetVersionReadsBack` | widgy_blog/version.py:6-11 | whatever the stage, the release part of `get_version()` reads back as the version |
| `Version.CurrentVersion` | widgy_blog/version.py:1-11 | with `VERSION = (0, 1, 0)` and `STAGE = 'alpha'`, `get_version()` is `"0.1.0-dev"` |

## Left out

- `urlresolvers.reverse` in both `get_absolute_url` methods (widgy_blog/utils.py:17-20, 33-37) is Django URL routing, a call into code outside the model. Only the keyword values are modelled. The year keyword is `date.year` unchanged, so only the zero-padded month keyword has a member.
- The input is modelled as finished `Date` values. In the source it is any iterable of objects with `year`, `month` and `day` attributes. The laziness of generators and of `groupby` is not modelled. The source turns every level into a list at once anyway.
- `Day` is a subclass of `datetime.date` in the source, and `Year` and `Month` are subclasses of `list`. The model keeps the date and the children. It does not model the rest of what the base classes give, such as date arithmetic or `list.append` after construction.
- `datetime.date`'s own range check is modelled as the predicate `ValidDate`. The source builds every group date from the year and month of a genuine input date, so the check can never fail there. `ArchiveDatesValid` proves this, so no error path is modelled.
- `Archive.MonthKeyword`: requires a month between 1 and 12, which `datetime.date` guarantees for every `Month.date`. `'{0:02}'` of a negative number is not modelled.
- The version is modelled as a sequence of non-negative numbers. Python's `str` of a negative entry is not modelled.
- `Split`, `ParseVersion` and `Release` are not in the source. They are the reading of a version string, added so that `get_version` has a partner to be proved against.
