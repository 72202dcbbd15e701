/** The escalation page: how long ago each ticket was escalated, the banner
    counting the active escalations, the "All Clear" card, and the
    admin-only "Resolve & Close" button. */
module CodeRed {

  import opened Wrappers
  import opened Text

  /** Timestamps are milliseconds since the epoch; parsing the stored date
      strings is not modelled. */
  datatype CodeRedTicket = CodeRedTicket(
    id: string,
    title: string,
    description: string,
    projectName: string,
    assignedTo: string,
    dueDate: string,
    createdAt: string,
    escalatedAt: int)

  const MsPerHour: int := 1000 * 60 * 60
  const HoursPerDay: int := 24

  /** How an elapsed time is reported: whole hours under a day, whole days
      from then on. */
  datatype Elapsed = HoursAgo(hours: int) | DaysAgo(days: int)

  /** The decision `getTimeAgo` makes for `now - escalatedAt` milliseconds.
      `Math.floor` of a quotient by a positive constant is Dafny's `/`. */
  function ElapsedSince(elapsedMs: int): (e: Elapsed)
    ensures e.HoursAgo? <==> elapsedMs < HoursPerDay * MsPerHour
    ensures e.HoursAgo? ==>
      e.hours < HoursPerDay && e.hours * MsPerHour <= elapsedMs < (e.hours + 1) * MsPerHour
    ensures e.DaysAgo? ==>
      e.days >= 1 && e.days * HoursPerDay * MsPerHour <= elapsedMs < (e.days + 1) * HoursPerDay * MsPerHour
  {
    var diffHours := elapsedMs / MsPerHour;
    if diffHours < HoursPerDay then
      HoursAgo(diffHours)
    else
      var diffDays := diffHours / HoursPerDay;
      assert diffDays * HoursPerDay <= diffHours < (diffDays + 1) * HoursPerDay;
      assert diffHours * MsPerHour <= elapsedMs < (diffHours + 1) * MsPerHour;
      DaysAgo(diffDays)
  }

  /** The label text: "{hours}h ago" or "{days}d ago". */
  function Label(e: Elapsed): string {
    match e
    case HoursAgo(h) => IntToString(h) + "h ago"
    case DaysAgo(d) => IntToString(d) + "d ago"
  }

  /** The two `Math.floor` steps, hours then days, give the floor of the
      elapsed hours below one day and the floor of the elapsed days from
      then on. */
  lemma ElapsedClosedForm(elapsedMs: int)
    ensures elapsedMs < HoursPerDay * MsPerHour ==> ElapsedSince(elapsedMs) == HoursAgo(elapsedMs / MsPerHour)
    ensures elapsedMs >= HoursPerDay * MsPerHour ==> ElapsedSince(elapsedMs) == DaysAgo(elapsedMs / (HoursPerDay * MsPerHour))
  {
  }

  /** `getTimeAgo`, given the clock difference: the floor of the elapsed
      hours below one day, the floor of the elapsed days from then on. */
  function TimeAgo(elapsedMs: int): (r: string)
    ensures elapsedMs < HoursPerDay * MsPerHour ==> r == IntToString(elapsedMs / MsPerHour) + "h ago"
    ensures elapsedMs >= HoursPerDay * MsPerHour ==> r == IntToString(elapsedMs / (HoursPerDay * MsPerHour)) + "d ago"
  {
    ElapsedClosedForm(elapsedMs);
    Label(ElapsedSince(elapsedMs))
  }

  /** Reads a label back. */
  function ParseLabel(s: string): Option<Elapsed> {
    if |s| < 5 then None
    else
      var amount := ParseInt(s[..|s| - 5]);
      var unit := s[|s| - 5..];
      if amount.None? then None
      else if unit == "h ago" then Some(HoursAgo(amount.value))
      else if unit == "d ago" then Some(DaysAgo(amount.value))
      else None
  }

  /** Every label reads back as the elapsed time it was written from, so two
      different elapsed reports never share a label. */
  lemma LabelRoundTrip(e: Elapsed)
    ensures ParseLabel(Label(e)) == Some(e)
  {
    var n := if e.HoursAgo? then e.hours else e.days;
    var s := Label(e);
    assert s[..|s| - 5] == IntToString(n);
    IntToStringRoundTrip(n);
  }

  /** The label shown reads back as the elapsed report: hours below one
      day, at least one day from then on. */
  lemma TimeAgoReadsBack(elapsedMs: int)
    ensures var e := ElapsedSince(elapsedMs);
      && ParseLabel(TimeAgo(elapsedMs)) == Some(e)
      && (elapsedMs < HoursPerDay * MsPerHour ==> e == HoursAgo(elapsedMs / MsPerHour))
      && (elapsedMs >= HoursPerDay * MsPerHour ==> e == DaysAgo(elapsedMs / (HoursPerDay * MsPerHour)) && e.days >= 1)
  {
    var e := ElapsedSince(elapsedMs);
    assert TimeAgo(elapsedMs) == Label(e);
    LabelRoundTrip(e);
    ElapsedClosedForm(elapsedMs);
  }

  /** "N critical issue(s) active", shown only when there are escalations. */
  function Banner(n: nat): (b: Option<string>)
    ensures b.Some? <==> n > 0
  {
    if n > 0 then Some(IntToString(n) + " critical " + (if n == 1 then "issue" else "issues") + " active")
    else None
  }

  /** The banner starts with the count it was given, read back from the
      text before its first space. */
  lemma BannerStartsWithCount(n: nat)
    requires n > 0
    ensures ParseInt(BeforeFirst(Banner(n).value, ' ')) == Some(n)
  {
    var digits := IntToString(n);
    assert ' ' !in digits by {
      assert forall k :: 0 <= k < |digits| ==> '0' <= digits[k] <= '9';
    }
    var rest := "critical " + (if n == 1 then "issue" else "issues") + " active";
    assert Banner(n).value == digits + [' '] + rest;
    BeforeFirstOfJoined(digits, ' ', rest);
    IntToStringRoundTrip(n);
  }

  /** One escalation is an "issue", more are "issues". */
  lemma BannerNoun(n: nat)
    requires n > 0
    ensures n == 1 ==> Banner(n) == Some("1 critical issue active")
    ensures n > 1 ==> Banner(n) == Some(IntToString(n) + " critical issues active")
  {
    if n == 1 {
      assert IntToString(1) == "1";
      assert "1" + " critical " + "issue" + " active" == "1 critical issue active";
    } else {
      var d := IntToString(n);
      assert d + " critical " + "issues" + " active" == d + " critical issues active";
    }
  }

  datatype CodeRedCard = CodeRedCard(
    id: string,
    title: string,
    escalated: string,
    assignee: string,
    resolveAndClose: bool)

  datatype CodeRedView = CodeRedView(
    banner: Option<string>,
    cards: seq<CodeRedCard>,
    allClear: bool)

  /** The "Escalated ..." line of a card. */
  function EscalatedLine(t: CodeRedTicket, now: int): string {
    "Escalated " + TimeAgo(now - t.escalatedAt)
  }

  function Card(isAdmin: bool, t: CodeRedTicket, now: int): CodeRedCard {
    CodeRedCard(t.id, t.title, EscalatedLine(t, now), BeforeFirst(t.assignedTo, '@'), isAdmin)
  }

  /** What the page renders for a viewer, the escalated tickets and the
      current time. */
  function CodeRedPage(isAdmin: bool, tickets: seq<CodeRedTicket>, now: int): (v: CodeRedView)
    ensures v.banner.Some? <==> |tickets| > 0
    ensures v.allClear <==> |tickets| == 0
    ensures !(v.banner.Some? && v.allClear)
    ensures v.banner == Banner(|tickets|)
    ensures |v.cards| == |tickets|
    ensures forall k :: 0 <= k < |v.cards| ==>
      && v.cards[k].id == tickets[k].id
      && v.cards[k].title == tickets[k].title
      && (v.cards[k].resolveAndClose <==> isAdmin)
      && v.cards[k].escalated == EscalatedLine(tickets[k], now)
      && v.cards[k].assignee == BeforeFirst(tickets[k].assignedTo, '@')
  {
    CodeRedView(
      Banner(|tickets|),
      seq(|tickets|, k requires 0 <= k < |tickets| => Card(isAdmin, tickets[k], now)),
      |tickets| == 0)
  }
}
