/**
 * The sanitised evidence summaries of the demo generator
 * (`generate_email_summary`, `generate_slack_summary`) and the time
 * window it reports (`get_time_window`).
 */
module IrpSummary {
  import opened Common
  import opened PyStr
  import Sorting
  import opened IrpRules

  // ---------------------------------------------------------------------
  // Email summary

  /** One row of evidence/email_summary.csv: the email's metadata, never its body. */
  datatype EmailSummaryRow = EmailSummaryRow(
    messageId: string,
    timestamp: string,
    sender: string,
    recipients: string,
    subject: string,
    hasAttachment: string,
    custodian: string,
    categories: string)

  function EmailRowOf(e: Email): EmailSummaryRow {
    EmailSummaryRow(GetOr(e.messageId, ""), GetOr(e.timestamp, ""), GetOr(e.sender, ""), GetOr(e.recipients, ""),
                    GetOr(e.subject, ""), GetOr(e.hasAttachment, ""), GetOr(e.custodian, ""),
                    Join("; ", Labels(CategoriesOf(EmailSignals(e)))))
  }

  /** `generate_email_summary`: one row per email, in the export's order. */
  method GenerateEmailSummary(emails: seq<Email>) returns (summary: seq<EmailSummaryRow>)
    ensures |summary| == |emails|
    ensures forall k :: 0 <= k < |emails| ==> summary[k] == EmailRowOf(emails[k])
  {
    summary := [];
    for i := 0 to |emails|
      invariant |summary| == i
      invariant forall k :: 0 <= k < i ==> summary[k] == EmailRowOf(emails[k])
    {
      var e := emails[i];
      var categories := CategorizeEmail(e);
      summary := summary + [EmailSummaryRow(GetOr(e.messageId, ""), GetOr(e.timestamp, ""), GetOr(e.sender, ""),
                                            GetOr(e.recipients, ""), GetOr(e.subject, ""),
                                            GetOr(e.hasAttachment, ""), GetOr(e.custodian, ""),
                                            Join("; ", Labels(categories)))];
    }
  }

  /**
   * The body reaches a row only through its categories: two emails that
   * differ only in their bodies give rows that differ at most in the
   * categories column.
   */
  lemma EmailRowOmitsBody(e: Email, body: Option<string>)
    ensures EmailRowOf(e.(body := body)).(categories := "") == EmailRowOf(e).(categories := "")
  {
  }

  /** The order the CSV rows are written in: by message id. */
  predicate IdNoLater(a: EmailSummaryRow, b: EmailSummaryRow) {
    StrLe(a.messageId, b.messageId)
  }

  /** `sorted(email_summary, key=message_id)`: the rows the CSV file holds, in order. */
  function EmailCsvRows(summary: seq<EmailSummaryRow>): (r: seq<EmailSummaryRow>)
    ensures multiset(r) == multiset(summary)
    ensures Sorting.SortedBy(r, IdNoLater)
  {
    StrLeIsTotalPreorder();
    Sorting.SortSorted(summary, IdNoLater);
    Sorting.Sort(summary, IdNoLater)
  }

  // ---------------------------------------------------------------------
  // Slack summary

  datatype MessageSummary = MessageSummary(
    messageId: string,
    timestamp: string,
    user: string,
    custodian: string,
    textPreview: string,
    hasAttachment: bool,
    categories: seq<Category>)

  datatype ChannelSummary = ChannelSummary(name: string, messageCount: nat, messages: seq<MessageSummary>)

  /** evidence/slack_summary.json before rendering. */
  datatype SlackSummary = SlackSummary(workspace: string, timeWindow: map<string, string>, channels: seq<ChannelSummary>)

  /**
   * A preview is at most 103 characters: the whole text when it has at
   * most 100, otherwise its first 100 followed by "...".
   */
  function TextPreview(text: string): (p: string)
    ensures |p| <= 103
    ensures |text| <= 100 ==> p == text
    ensures |text| > 100 ==> |p| == 103 && p[..100] == text[..100] && p[100..] == "..."
  {
    if |text| > 100 then text[..100] + "..." else text
  }

  function MessageSummaryOf(m: SlackMessage): MessageSummary {
    MessageSummary(GetOr(m.messageId, ""), GetOr(m.timestamp, ""), GetOr(m.user, ""), GetOr(m.custodian, ""),
                   TextPreview(GetOr(m.text, "")), m.hasAttachment, CategoriesOf(SlackSignals(m)))
  }

  function ChannelSummaryOf(ch: Channel): ChannelSummary {
    ChannelSummary(GetOr(ch.name, ""), |ch.messages|,
                   seq(|ch.messages|, j requires 0 <= j < |ch.messages| => MessageSummaryOf(ch.messages[j])))
  }

  function SlackSummaryOf(slack: SlackExport): SlackSummary {
    SlackSummary(GetOr(slack.workspace, ""), if slack.timeWindow.Some? then slack.timeWindow.value else map[],
                 seq(|slack.channels|, c requires 0 <= c < |slack.channels| => ChannelSummaryOf(slack.channels[c])))
  }

  /** `generate_slack_summary`, channel by channel and message by message. */
  method GenerateSlackSummary(slack: SlackExport) returns (summary: SlackSummary)
    ensures summary == SlackSummaryOf(slack)
  {
    var channels: seq<ChannelSummary> := [];
    for c := 0 to |slack.channels|
      invariant |channels| == c
      invariant forall k :: 0 <= k < c ==> channels[k] == ChannelSummaryOf(slack.channels[k])
    {
      var ch := slack.channels[c];
      var messages: seq<MessageSummary> := [];
      for j := 0 to |ch.messages|
        invariant |messages| == j
        invariant forall k :: 0 <= k < j ==> messages[k] == MessageSummaryOf(ch.messages[k])
      {
        var m := ch.messages[j];
        var categories := CategorizeSlackMessage(m);
        var text := GetOr(m.text, "");
        var preview := if |text| > 100 then text[..100] else text;
        if |text| > 100 {
          preview := preview + "...";
        }
        messages := messages + [MessageSummary(GetOr(m.messageId, ""), GetOr(m.timestamp, ""), GetOr(m.user, ""),
                                               GetOr(m.custodian, ""), preview, m.hasAttachment, categories)];
      }
      channels := channels + [ChannelSummary(GetOr(ch.name, ""), |ch.messages|, messages)];
    }
    summary := SlackSummary(GetOr(slack.workspace, ""),
                            if slack.timeWindow.Some? then slack.timeWindow.value else map[], channels);
  }

  /**
   * The Slack summary keeps the channels and, in each, the messages in
   * the order of the export; `message_count` is the number of messages, and
   * every message keeps its id, has a preview of at most 103 characters
   * and at least one category.
   */
  lemma SlackSummaryShape(slack: SlackExport)
    ensures var s := SlackSummaryOf(slack);
      && |s.channels| == |slack.channels|
      && forall c :: 0 <= c < |s.channels| ==>
           var ch, out := slack.channels[c], s.channels[c];
           && out.name == GetOr(ch.name, "")
           && out.messageCount == |ch.messages| == |out.messages|
           && forall j :: 0 <= j < |out.messages| ==>
                && out.messages[j].messageId == GetOr(ch.messages[j].messageId, "")
                && |out.messages[j].textPreview| <= 103
                && out.messages[j].categories != []
  {
    var s := SlackSummaryOf(slack);
    forall c, j | 0 <= c < |s.channels| && 0 <= j < |s.channels[c].messages|
      ensures |s.channels[c].messages[j].textPreview| <= 103 && s.channels[c].messages[j].categories != []
    {
      var m := slack.channels[c].messages[j];
      CategoriesSpec(SlackSignals(m));
    }
  }

  // ---------------------------------------------------------------------
  // Time window

  predicate HasTimestamp(o: Option<string>) {
    o.Some? && o.value != ""
  }

  /**
   * The timestamps that are present and non-empty, in order: the filter
   * that both the email comprehension and the Slack loops apply.
   */
  function PresentTimes(stamps: seq<Option<string>>): (r: seq<string>)
    ensures forall t :: t in r <==> t != [] && Some(t) in stamps
  {
    if stamps == [] then []
    else
      var init, last := stamps[..|stamps| - 1], stamps[|stamps| - 1];
      assert stamps == init + [last];
      PresentTimes(init) + (if HasTimestamp(last) then [last.value] else [])
  }

  /** `t.split('T')[0]`: everything before the first "T". */
  function BeforeT(t: string): (r: string)
    ensures r <= t && 'T' !in r
    ensures |r| < |t| ==> t[|r|] == 'T'
  {
    if t == [] || t[0] == 'T' then [] else [t[0]] + BeforeT(t[1..])
  }

  /**
   * The date part of a timestamp: its first word when it holds a space,
   * otherwise what comes before "T". A timestamp that holds a space but
   * no word (only whitespace) has no first word: Python raises
   * IndexError there, modelled as `None`.
   */
  function DatePart(t: string): (r: Option<string>)
    ensures r.None? <==> ' ' in t && Split(t) == []
    ensures r.Some? ==> r.value != [] || ' ' !in t
    ensures r.Some? ==> ' ' !in r.value
    ensures r.Some? && ' ' !in t ==> r.value <= t && 'T' !in r.value
    ensures ' ' in t && Split(t) != [] ==> r == Some(Split(t)[0])
    ensures ' ' !in t ==> r == Some(BeforeT(t))
  {
    if ' ' in t then
      var ws := Split(t);
      if ws == [] then None
      else
        SplitGivesWords(t);
        assert IsWord(ws[0]);
        Some(ws[0])
    else Some(BeforeT(t))
  }

  /** The date parts of all timestamps, or `None` when one of them raises. */
  function DatesOf(times: seq<string>): (r: Option<seq<string>>)
    ensures r.None? <==> exists t | t in times :: DatePart(t).None?
    ensures r.Some? ==> |r.value| == |times| && forall k :: 0 <= k < |times| ==> Some(r.value[k]) == DatePart(times[k])
  {
    if times == [] then Some([])
    else
      var init, last := times[..|times| - 1], times[|times| - 1];
      assert times == init + [last];
      var d := DatesOf(init);
      if d.None? || DatePart(last).None? then None else Some(d.value + [DatePart(last).value])
  }

  /** `min` over strings. */
  function MinStr(s: seq<string>): (r: string)
    requires s != []
    ensures r in s && forall x | x in s :: StrLe(r, x)
  {
    StrLeTotal(s[0], s[0]);
    if |s| == 1 then s[0]
    else
      var m := MinStr(s[1..]);
      StrLeTotal(s[0], m);
      forall x | x in s[1..] ensures StrLe(s[0], m) ==> StrLe(s[0], x) {
        if StrLe(s[0], m) { StrLeTrans(s[0], m, x); }
      }
      assert s == [s[0]] + s[1..];
      if StrLe(s[0], m) then s[0] else m
  }

  /** `max` over strings. */
  function MaxStr(s: seq<string>): (r: string)
    requires s != []
    ensures r in s && forall x | x in s :: StrLe(x, r)
  {
    StrLeTotal(s[0], s[0]);
    if |s| == 1 then s[0]
    else
      var m := MaxStr(s[1..]);
      StrLeTotal(s[0], m);
      forall x | x in s[1..] ensures StrLe(m, s[0]) ==> StrLe(x, s[0]) {
        if StrLe(m, s[0]) { StrLeTrans(x, m, s[0]); }
      }
      assert s == [s[0]] + s[1..];
      if StrLe(m, s[0]) then s[0] else m
  }

  /** `email_times + slack_times`. */
  function AllTimes(emails: seq<Email>, slack: SlackExport): seq<string> {
    var msgs := MessagesOf(slack.channels);
    PresentTimes(seq(|emails|, i requires 0 <= i < |emails| => emails[i].timestamp)) +
    PresentTimes(seq(|msgs|, i requires 0 <= i < |msgs| => msgs[i].timestamp))
  }

  /**
   * `get_time_window`: the default pair exactly when there are no
   * timestamps; a failure exactly when some timestamp is whitespace holding
   * a space; otherwise both ends are dates of the data, the start is no
   * later than the end and every date lies between them.
   */
  function GetTimeWindow(emails: seq<Email>, slack: SlackExport): (w: Option<(string, string)>)
    ensures AllTimes(emails, slack) == [] ==> w == Some(("2024-01-01", "2024-02-15"))
    ensures w.None? <==> exists t | t in AllTimes(emails, slack) :: ' ' in t && Split(t) == []
    ensures AllTimes(emails, slack) != [] && w.Some? ==>
              var dates := DatesOf(AllTimes(emails, slack)).value;
              && w.value.0 in dates && w.value.1 in dates
              && StrLe(w.value.0, w.value.1)
              && forall d | d in dates :: StrLe(w.value.0, d) && StrLe(d, w.value.1)
  {
    var times := AllTimes(emails, slack);
    if times == [] then Some(("2024-01-01", "2024-02-15"))
    else
      var dates := DatesOf(times);
      if dates.None? then None
      else
        var lo, hi := MinStr(dates.value), MaxStr(dates.value);
        StrLeTrans(lo, dates.value[0], hi);
        Some((lo, hi))
  }
}
