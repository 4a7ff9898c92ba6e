# Minneapolis RECAC meeting normaliser, modelled in Dafny

The repository is one scraper, `MinnRecacSpider`, for the Racial Equity Community
Advisory Committee of the City of Minneapolis. It fetches one JSON array of calendar
records and turns each element into a meeting record of the city-scrapers schema. This
project models that record normaliser and proves what it does with each field.

It has three modules.

- `Wrappers` (`wrappers.dfy`): `Option` and `Result`.
- `PyValues` (`py_values.dfy`): the Python semantics the spider uses.
  - `Scalar` is a decoded JSON scalar.
  - `Truthy` is Python truthiness.
  - `Str` is `str()` of a scalar, with `IntToString` as `str()` of an integer.
  - `ReplaceChar` is `str.replace` with a one-character pattern.
- `MinnRecac` (`minn_recac.dfy`): the spider's field rules as functions (`ParseLocation`,
  `ParseSource`, `ParseLinks`, `ReplaceSpaces`, `ReportHref`, `ParseClassification`,
  `ParseStart`). `Item` is the input record and `Meeting` the output. `Parse` is a method
  whose loop appends one meeting per input element, as the generator does.
  - `Normalised(hooks, item, m)` states field by field which meeting belongs to an item.
  - `FirstFailure` states when building that meeting raises.

`datetime.strptime`, the framework's `_get_status` and its `_get_id` are not defined in
the repository. They are fields of `Hooks`, a datatype of total functions passed to
`Parse`. `strptime` returns `None` when the string does not match `%Y-%m-%dT%H:%M:%S`.
`getStatus` receives `Some("Meeting is cancelled")` or `None`. `None` stands for the call
without a `text` argument. The helper's default for that argument is not part of this model.

## Errors

Two errors of the source are modelled, because `parse` is a generator that stops at the
first raise:

- `strptime` rejects `MeetingTime` (`BadMeetingTime`);
- a truthy `CommitteeReportDocument` comes without a `CommitteeReportDocumentId` key
  (`KeyError`, `MissingReportDocumentId`).

`Parse` returns the meetings yielded before the failure and a `Failure(index, reason)`.
Python evaluates keyword arguments left to right, so `start` is built before `links`.
`FirstFailure` reports the start error first for that reason.

## Notes on the field rules

- The address is also "Remote" when `Location` is not "Online Meeting" and `Address` is
  literally "Remote", since `Address` is copied verbatim (`ParseLocationRemote`).
- `CommitteeReportDocument` is only tested for truthiness and passed to `str()`.
  `CommitteeReportDocumentId` is only passed to `str()`. So any JSON scalar is accepted in
  both. A falsy document (`0`, `false`, `null`, `""`) gives no link. A falsy id still gives
  one: `null` becomes `.../None/...`. A truthy non-string document such as `true` becomes
  the filename `"True"`.
- `HrefParts` takes a report URL apart again after its prefix, splitting at the first slash
  that `IndexOf` finds. It exists only to state the round trip of `ReportHref`.

## Model

| member | source | states |
|---|---|---|
| `MinnRecac.Parse` | city_scrapers/spiders/minn_recac.py:33-56 | At most one meeting per input element. All of them when nothing raises. Meeting i is the normalised meeting of item i, so order is kept. On a failure the index is the number of meetings yielded, and the reason is that item's first failure. |
| `MinnRecac.NormalisedIsUnique` | city_scrapers/spiders/minn_recac.py:37-54 | The field rules, status and id determine the meeting of an item uniquely. |
| `MinnRecac.CancelledOnlyAffectsStatus` | city_scrapers/spiders/minn_recac.py:50-54 | Two items that differ only in `Cancelled` give meetings equal in every field except status and id. The status text differs exactly when `Cancelled` differs. |
| `MinnRecac.CancellationText` | city_scrapers/spiders/minn_recac.py:50-53 | The status helper gets a text exactly when the item is cancelled, and that text is "Meeting is cancelled". |
| `MinnRecac.ConstantFields` | city_scrapers/spiders/minn_recac.py:40-44 | Any two normalised meetings have classification "Advisory Committee" (the constant that `_parse_classification` returns at lines 66-68, modelled by `ParseClassification`), no end, `all_day` false and empty time notes. |
| `MinnRecac.ParseStartReadsMeetingTimeOnly` | city_scrapers/spiders/minn_recac.py:70-72 | The start is `strptime` of `MeetingTime` alone: items that agree on `MeetingTime` get the same start, or both raise. |
| `MinnRecac.FirstFailure` | city_scrapers/spiders/minn_recac.py:37-48 | Building a meeting raises `BadMeetingTime` exactly when `strptime` fails. It raises `MissingReportDocumentId` exactly when the start parses but a truthy report document has no id key. It succeeds exactly when start and links both succeed. |
| `PyValues.FalsyScalars` | city_scrapers/spiders/minn_recac.py:103 | A scalar is falsy exactly when it is `None`, `False`, `0` or `""`. |
| `PyValues.Str` | city_scrapers/spiders/minn_recac.py:107-108 | `str()` of a scalar: "None", "True"/"False", the canonical decimal text of an integer (`IntToString`, which reads back as the integer), or the string itself. |
| `MinnRecac.ParseLocation` | city_scrapers/spiders/minn_recac.py:86-95 | The name is `Location`. The address is never `None`. It is "Remote" for "Online Meeting" and `Address` verbatim otherwise. |
| `MinnRecac.ParseLocationRemote` | city_scrapers/spiders/minn_recac.py:86-95 | The address is "Remote" if and only if `Location` is "Online Meeting" or `Address` is "Remote". |
| `MinnRecac.ParseLocationIgnoresAddressWhenOnline` | city_scrapers/spiders/minn_recac.py:88-93 | For an online meeting, changing `Address` does not change the location. |
| `MinnRecac.ParseSource` | city_scrapers/spiders/minn_recac.py:97-98 | The source is the Boards/Meetings prefix followed by `Abbreviation`, and has the sum of their lengths. |
| `MinnRecac.ParseSourceInjective` | city_scrapers/spiders/minn_recac.py:97-98 | Two items share a source URL exactly when their abbreviations are equal. |
| `MinnRecac.ParseLinks` | city_scrapers/spiders/minn_recac.py:100-112 | Raises exactly when a truthy report document has no id key. `HasReportDocument` is the test of line 103: the key is present and its value is truthy. Otherwise there is at most one link. It is empty exactly when the document is absent or falsy. The one link is titled "Report Document" with the report URL. |
| `MinnRecac.ReportHref` | city_scrapers/spiders/minn_recac.py:107-109 | The URL starts with the CommitteeReport download prefix. Its length is prefix + `str(id)` + 1 + filename. |
| `MinnRecac.ReportHrefRoundTrip` | city_scrapers/spiders/minn_recac.py:107-109 | When `str(id)` has no slash, splitting the URL after the prefix at the first slash gives back `str(id)` and the hyphenated filename. |
| `MinnRecac.ReportHrefHasNoSpace` | city_scrapers/spiders/minn_recac.py:107-109 | For an id that is not a string, nothing after the prefix is a space. |
| `MinnRecac.ReplaceSpaces` | city_scrapers/spiders/minn_recac.py:108-109 | Keeps the length and leaves no space. Every non-space character stays in place and every space becomes a hyphen. |
| `MinnRecac.ReplaceSpacesIdempotent` | city_scrapers/spiders/minn_recac.py:108-109 | Replacing spaces twice gives the same as once. |
| `PyValues.ReplaceChar` | city_scrapers/spiders/minn_recac.py:108-109 | `replace` with one-character strings: same length; position k holds the replacement where the input held the pattern, and the input's character everywhere else. |
| `PyValues.ReplaceCharRemovesTarget` | city_scrapers/spiders/minn_recac.py:108-109 | No occurrence of the pattern survives, when the replacement differs from the pattern. |
| `PyValues.ReplaceCharIdempotent` | city_scrapers/spiders/minn_recac.py:108-109 | Replacing twice is replacing once. |
| `PyValues.ReplaceCharFixpoint` | city_scrapers/spiders/minn_recac.py:108-109 | The replacement leaves a string unchanged if and only if the pattern does not occur in it. |
| `PyValues.ReplaceCharConcat` | city_scrapers/spiders/minn_recac.py:108-109 | The replacement distributes over concatenation. |
| `PyValues.NatToString` | city_scrapers/spiders/minn_recac.py:107-108 | `str()` of a natural number: non-empty, only digits, no leading zero. |
| `PyValues.NatToStringRoundTrip` | city_scrapers/spiders/minn_recac.py:107-108 | The digits read back as the number. |
| `PyValues.IntToString` | city_scrapers/spiders/minn_recac.py:107-108 | `str()` of an integer: a leading minus exactly for negatives, digits after it, and no leading zero (only 0 itself starts with '0'). |
| `PyValues.IntToStringRoundTrip` | city_scrapers/spiders/minn_recac.py:107-108 | Parsing `str(i)` back yields `i`. |
| `PyValues.StrOfNonStringIsPlain` | city_scrapers/spiders/minn_recac.py:107-108 | `str()` of null, a boolean or an integer contains neither a space nor a slash. |

## Left out

- The request URL (`start_urls`/`base_url`, lines 13-24) is a static constant given to the framework's HTTP layer, so it has no behaviour to model.
- `json.loads` is library parsing. The input is an already-decoded `seq<Item>`.
- JSON floats, arrays and objects as report document or id values are not modelled, because Python's `str()` of them is not modelled.
- `datetime.strptime`, `_get_status` and `_get_id` are external routines. They are `Hooks` parameters, and their internals (format checking, wall-clock time, hashing) are not modelled. One `Hooks` value serves every item of a run, so the model reads the clock once per run, while `_get_status` reads the current time once per item.
- The `Meeting` item class, the `timezone`, `name` and `agency` attributes, and the framework plumbing are not modelled. That plumbing is fetching, scheduling, pipelines and persistence.
- `_parse_title`, `_parse_description`, `_parse_end`, `_parse_time_notes` and `_parse_all_day` are not modelled, because `parse` never calls them.
- Missing required keys are not modelled, because every field except the two report fields is always present in `Item`.
- `str()` of a non-string `CommitteeName` or `Description` is not modelled. Those fields are strings, so `str()` is the identity.
- A non-string `Abbreviation` is not modelled, because `Abbreviation` is typed as a string. In Python it would make the `+` raise `TypeError`.
- `Location`, `Address` and `MeetingTime` are strings, so a JSON null in them is not modelled. In Python a null `Address` on a meeting that is not online gives the address `None`, and a null `MeetingTime` makes `strptime` raise `TypeError`. `ParseLocation`'s "never `None`" holds for string addresses only.
- `Cancelled` is a boolean. Truthiness of other JSON values there is not modelled.
- `MinnRecac.ReportHrefHasNoSpace`: speaks of the URL after its fixed prefix only. The prefix is a constant literal with no space, but that fact about the literal is not proved.
