/**
 * The record normaliser of the Minneapolis Racial Equity Community Advisory
 * Committee spider: each element of the decoded calendar array becomes one
 * meeting record.
 *
 * What the spider calls but does not define (`datetime.strptime`, and the
 * framework's `_get_status` and `_get_id`) is handed in as `Hooks`.
 */
module MinnRecac {
  import opened Wrappers
  import opened PyValues

  const ONLINE_MEETING: string := "Online Meeting"
  const REMOTE: string := "Remote"
  const SOURCE_PREFIX: string := "https://lims.minneapolismn.gov/Boards/Meetings/"
  const REPORT_PREFIX: string := "https://lims.minneapolismn.gov/Download/CommitteeReport/"
  const REPORT_TITLE: string := "Report Document"
  const CANCELLED_TEXT: string := "Meeting is cancelled"
  /** The framework's `ADVISORY_COMMITTEE` classification tag. */
  const ADVISORY_COMMITTEE: string := "Advisory Committee"

  /**
   * One element of the decoded JSON array. The report document and its id may
   * be missing as keys (`None` here); every other key is always present.
   */
  datatype Item = Item(
    committeeName: string,
    description: string,
    meetingTime: string,
    location: string,
    address: string,
    cancelled: bool,
    abbreviation: string,
    reportDocument: Option<Scalar>,
    reportDocumentId: Option<Scalar>)

  /** A naive (timezone-less) `datetime`. */
  datatype DateTime = DateTime(year: int, month: int, day: int, hour: int, minute: int, second: int)

  /** The `{"address": …, "name": …}` location dictionary; the address may be Python `None`. */
  datatype Location = Location(address: Option<string>, name: string)

  datatype Link = Link(title: string, href: string)

  /** A meeting item; `status` and `id` are unset (`None`) until `Parse` assigns them. */
  datatype Meeting = Meeting(
    title: string,
    description: string,
    classification: string,
    start: DateTime,
    end: Option<DateTime>,
    allDay: bool,
    timeNotes: string,
    location: Location,
    links: seq<Link>,
    source: string,
    status: Option<string>,
    id: Option<string>)

  /**
   * The routines the spider calls but does not define: `strptime` with the
   * fixed format `%Y-%m-%dT%H:%M:%S` (`None` when the string does not match),
   * and the framework's status and id computations. `getStatus` receives the
   * cancellation text, or `None` when it is called without one.
   */
  datatype Hooks = Hooks(
    strptime: string -> Option<DateTime>,
    getStatus: (Meeting, Option<string>) -> string,
    getId: Meeting -> string)

  /** Why the construction of one meeting raised. */
  datatype Reason =
    | BadMeetingTime           // strptime rejected MeetingTime
    | MissingReportDocumentId  // a report document without a CommitteeReportDocumentId key

  /** The item at `index` raised, which ended the iteration. */
  datatype Failure = Failure(index: nat, reason: Reason)

  /** Every meeting of this committee is classified as an advisory committee meeting. */
  function ParseClassification(item: Item): (r: string)
    ensures r == ADVISORY_COMMITTEE
  {
    ADVISORY_COMMITTEE
  }

  /** The start is `strptime` of MeetingTime, with `None` when the string does not match. */
  function ParseStart(hooks: Hooks, item: Item): Option<DateTime> {
    hooks.strptime(item.meetingTime)
  }

  /** The start depends on MeetingTime alone: items that agree on it agree on the start. */
  lemma ParseStartReadsMeetingTimeOnly(hooks: Hooks, a: Item, b: Item)
    requires a.meetingTime == b.meetingTime
    ensures ParseStart(hooks, a) == ParseStart(hooks, b)
  {
  }

  /**
   * The address is "Remote" for an online meeting and `Address` otherwise; the
   * `None` of the online branch is always overwritten, because that branch is
   * only taken when the first operand of its disjunction holds.
   */
  function ParseLocation(item: Item): (r: Location)
    ensures r.name == item.location
    ensures r.address.Some?
    ensures item.location == ONLINE_MEETING ==> r.address == Some(REMOTE)
    ensures item.location != ONLINE_MEETING ==> r.address == Some(item.address)
  {
    var address :=
      if item.location != ONLINE_MEETING then Some(item.address)
      else
        var unset: Option<string> := None;
        if item.location == ONLINE_MEETING || item.address == ONLINE_MEETING then Some(REMOTE) else unset;
    Location(address, item.location)
  }

  /** The address reads "Remote" exactly when the meeting is online or the Address itself says "Remote". */
  lemma ParseLocationRemote(item: Item)
    ensures ParseLocation(item).address == Some(REMOTE)
        <==> item.location == ONLINE_MEETING || item.address == REMOTE
  {
  }

  /** For an online meeting the Address is not read at all. */
  lemma ParseLocationIgnoresAddressWhenOnline(a: Item, b: Item)
    requires a.location == ONLINE_MEETING
    requires b == a.(address := b.address)
    ensures ParseLocation(a) == ParseLocation(b)
  {
  }

  /** The source URL is the fixed prefix followed by the Abbreviation. */
  function ParseSource(item: Item): (r: string)
    ensures |r| == |SOURCE_PREFIX| + |item.abbreviation|
    ensures r[..|SOURCE_PREFIX|] == SOURCE_PREFIX
    ensures r[|SOURCE_PREFIX|..] == item.abbreviation
  {
    SOURCE_PREFIX + item.abbreviation
  }

  /** Two items get the same source URL exactly when their abbreviations agree. */
  lemma ParseSourceInjective(a: Item, b: Item)
    ensures ParseSource(a) == ParseSource(b) <==> a.abbreviation == b.abbreviation
  {
  }

  /** Replaces every space of a filename with a hyphen. */
  function ReplaceSpaces(s: string): (r: string)
    ensures |r| == |s|
    ensures ' ' !in r
    ensures forall k :: 0 <= k < |s| && s[k] != ' ' ==> r[k] == s[k]
    ensures forall k :: 0 <= k < |s| && s[k] == ' ' ==> r[k] == '-'
  {
    ReplaceCharRemovesTarget(s, ' ', '-');
    ReplaceChar(s, ' ', '-')
  }

  lemma ReplaceSpacesIdempotent(s: string)
    ensures ReplaceSpaces(ReplaceSpaces(s)) == ReplaceSpaces(s)
  {
  }

  /** The download URL of a committee report: prefix, id, a slash, and the filename with hyphens for spaces. */
  function ReportHref(id: Scalar, doc: Scalar): (r: string)
    ensures |r| == |REPORT_PREFIX| + |Str(id)| + 1 + |Str(doc)|
    ensures r[..|REPORT_PREFIX|] == REPORT_PREFIX
  {
    REPORT_PREFIX + Str(id) + "/" + ReplaceSpaces(Str(doc))
  }

  /** The position of the first `c` in `s`, if there is one. */
  function IndexOf(s: string, c: char): (r: Option<nat>)
    ensures r.None? <==> c !in s
    ensures r.Some? ==> r.value < |s| && s[r.value] == c && c !in s[..r.value]
    decreases |s|
  {
    if s == [] then None
    else if s[0] == c then Some(0)
    else match IndexOf(s[1..], c)
      case None => None
      case Some(k) => Some(k + 1)
  }

  /** Splits a report URL back into the id text and the (hyphenated) filename. */
  function HrefParts(href: string): Option<(string, string)> {
    if |href| < |REPORT_PREFIX| || href[..|REPORT_PREFIX|] != REPORT_PREFIX then None
    else
      var rest := href[|REPORT_PREFIX|..];
      match IndexOf(rest, '/')
      case None => None
      case Some(k) => Some((rest[..k], rest[k + 1..]))
  }

  /** A report URL whose id text has no slash can be taken apart again. */
  lemma ReportHrefRoundTrip(id: Scalar, doc: Scalar)
    requires '/' !in Str(id)
    ensures HrefParts(ReportHref(id, doc)) == Some((Str(id), ReplaceSpaces(Str(doc))))
  {
    var head, tail := Str(id), ReplaceSpaces(Str(doc));
    assert ReportHref(id, doc) == REPORT_PREFIX + head + "/" + tail;
    SplitAfterPrefix(head, tail);
  }

  /** The string-level step of the round trip: the first slash after the prefix ends a slash-free head. */
  lemma SplitAfterPrefix(head: string, tail: string)
    requires '/' !in head
    ensures HrefParts(REPORT_PREFIX + head + "/" + tail) == Some((head, tail))
  {
    var href := REPORT_PREFIX + head + "/" + tail;
    var rest := href[|REPORT_PREFIX|..];
    assert rest == head + "/" + tail;
    var k := |head|;
    assert rest[k] == '/';
    assert rest[..k] == head;
    assert IndexOf(rest, '/') == Some(k);
    assert rest[k + 1..] == tail;
  }

  /** With an id that is not a string, everything after the fixed prefix is free of spaces. */
  lemma ReportHrefHasNoSpace(id: Scalar, doc: Scalar)
    requires !id.JStr?
    ensures ' ' !in ReportHref(id, doc)[|REPORT_PREFIX|..]
  {
    StrOfNonStringIsPlain(id);
    var head, tail := Str(id), ReplaceSpaces(Str(doc));
    assert ReportHref(id, doc)[|REPORT_PREFIX|..] == head + "/" + tail;
    NoSpaceAroundSlash(head, tail);
  }

  lemma NoSpaceAroundSlash(head: string, tail: string)
    requires ' ' !in head && ' ' !in tail
    ensures ' ' !in head + "/" + tail
  {
    var rest := head + "/" + tail;
    forall k | 0 <= k < |rest|
      ensures rest[k] != ' '
    {
      if k < |head| {
        assert rest[k] == head[k];
      } else if k > |head| {
        assert rest[k] == tail[k - |head| - 1];
      }
    }
  }

  /** The report document key is present and its value is truthy. */
  predicate HasReportDocument(item: Item) {
    item.reportDocument.Some? && Truthy(item.reportDocument.value)
  }

  /**
   * No link without a truthy report document; otherwise exactly one, titled
   * "Report Document". Reading the id raises when its key is missing.
   */
  function ParseLinks(item: Item): (r: Result<seq<Link>, Reason>)
    ensures r.Err? <==> HasReportDocument(item) && item.reportDocumentId.None?
    ensures r.Err? ==> r.error == MissingReportDocumentId
    ensures r.Ok? ==> |r.value| <= 1
    ensures r.Ok? ==> (r.value == [] <==> !HasReportDocument(item))
    ensures r.Ok? && r.value != [] ==>
      r.value[0].title == REPORT_TITLE &&
      r.value[0].href == ReportHref(item.reportDocumentId.value, item.reportDocument.value)
  {
    var links: seq<Link> := [];
    if HasReportDocument(item) then
      match item.reportDocumentId
      case None => Err(MissingReportDocumentId)
      case Some(id) => Ok(links + [Link(REPORT_TITLE, ReportHref(id, item.reportDocument.value))])
    else
      Ok(links)
  }

  /** The text handed to the status helper: the cancellation reason exactly for a cancelled meeting. */
  function CancellationText(item: Item): (r: Option<string>)
    ensures r.Some? <==> item.cancelled
    ensures r.Some? ==> r.value == CANCELLED_TEXT
  {
    if item.cancelled then Some(CANCELLED_TEXT) else None
  }

  /** Whether building the meeting for `item` raises, and why (MeetingTime is read before the links). */
  function FirstFailure(hooks: Hooks, item: Item): (r: Option<Reason>)
    ensures r == Some(BadMeetingTime) <==> ParseStart(hooks, item).None?
    ensures r == Some(MissingReportDocumentId) <==>
      ParseStart(hooks, item).Some? && HasReportDocument(item) && item.reportDocumentId.None?
    ensures r.None? <==> ParseStart(hooks, item).Some? && ParseLinks(item).Ok?
  {
    if ParseStart(hooks, item).None? then Some(BadMeetingTime)
    else if ParseLinks(item).Err? then Some(ParseLinks(item).error)
    else None
  }

  /**
   * `m` is the meeting the spider yields for `item`: fields copied or derived
   * by the rules above, constants where the spider sets constants, the status
   * computed from the meeting before status and id were set, and the id from
   * the meeting once its status is set.
   */
  predicate Normalised(hooks: Hooks, item: Item, m: Meeting) {
    && m.title == item.committeeName
    && m.description == item.description
    && m.classification == ADVISORY_COMMITTEE
    && ParseStart(hooks, item) == Some(m.start)
    && m.end == None
    && !m.allDay
    && m.timeNotes == ""
    && m.location == ParseLocation(item)
    && ParseLinks(item) == Ok(m.links)
    && m.source == ParseSource(item)
    && m.status == Some(hooks.getStatus(m.(status := None, id := None), CancellationText(item)))
    && m.id == Some(hooks.getId(m.(id := None)))
  }

  /** At most one meeting is normalised from an item. */
  lemma NormalisedIsUnique(hooks: Hooks, item: Item, m1: Meeting, m2: Meeting)
    requires Normalised(hooks, item, m1) && Normalised(hooks, item, m2)
    ensures m1 == m2
  {
  }

  /**
   * `Cancelled` is read only for the status call: two items that differ at
   * most in it give meetings that agree on every field but status and id.
   */
  lemma CancelledOnlyAffectsStatus(hooks: Hooks, a: Item, b: Item, ma: Meeting, mb: Meeting)
    requires b == a.(cancelled := b.cancelled)
    requires Normalised(hooks, a, ma) && Normalised(hooks, b, mb)
    ensures ma.(status := None, id := None) == mb.(status := None, id := None)
    ensures CancellationText(a) != CancellationText(b) <==> a.cancelled != b.cancelled
  {
  }

  /** The constant fields are the same for every item. */
  lemma ConstantFields(hooks: Hooks, a: Item, b: Item, ma: Meeting, mb: Meeting)
    requires Normalised(hooks, a, ma) && Normalised(hooks, b, mb)
    ensures ma.classification == mb.classification == ADVISORY_COMMITTEE
    ensures ma.end == mb.end == None
    ensures !ma.allDay && !mb.allDay
    ensures ma.timeNotes == mb.timeNotes == ""
  {
  }

  /**
   * The spider's `parse`: one meeting per element of the decoded array, in
   * order. When building a meeting raises, the meetings already yielded are
   * kept and the iteration stops at that element.
   */
  method Parse(hooks: Hooks, items: seq<Item>) returns (meetings: seq<Meeting>, failure: Option<Failure>)
    ensures |meetings| <= |items|
    ensures failure.None? ==> |meetings| == |items|
    ensures failure.Some? ==>
      failure.value.index == |meetings| < |items| &&
      FirstFailure(hooks, items[|meetings|]) == Some(failure.value.reason)
    ensures forall i :: 0 <= i < |meetings| ==>
      FirstFailure(hooks, items[i]) == None && Normalised(hooks, items[i], meetings[i])
  {
    meetings := [];
    failure := None;
    for n := 0 to |items|
      invariant |meetings| == n
      invariant forall i :: 0 <= i < n ==>
        FirstFailure(hooks, items[i]) == None && Normalised(hooks, items[i], meetings[i])
    {
      var item := items[n];
      var start := ParseStart(hooks, item);
      if start.None? {
        failure := Some(Failure(n, BadMeetingTime));
        return;
      }
      var location := ParseLocation(item);
      var links := ParseLinks(item);
      if links.Err? {
        failure := Some(Failure(n, links.error));
        return;
      }
      var meeting := Meeting(
        item.committeeName, item.description, ParseClassification(item),
        start.value, None, false, "", location, links.value, ParseSource(item),
        None, None);
      if item.cancelled {
        meeting := meeting.(status := Some(hooks.getStatus(meeting, Some(CANCELLED_TEXT))));
      } else {
        meeting := meeting.(status := Some(hooks.getStatus(meeting, None)));
      }
      meeting := meeting.(id := Some(hooks.getId(meeting)));
      meetings := meetings + [meeting];
    }
  }
}
