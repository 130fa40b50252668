/**
 * The demo response-pack generator (irp_demo/scripts/generate_irp_demo.py):
 * its two inputs, an email export (one CSV row per email) and a Slack
 * export (channels of messages), and the keyword rules that label each
 * communication with review categories.
 *
 * A field the row or message does not carry is `None`; `.get(key, d)`
 * is `GetOr(field, d)`.
 */
module IrpRules {
  import opened Common
  import opened PyStr

  /** One row of email_export.csv. */
  datatype Email = Email(
    messageId: Option<string>,
    timestamp: Option<string>,
    sender: Option<string>,
    recipients: Option<string>,
    subject: Option<string>,
    body: Option<string>,
    hasAttachment: Option<string>,
    custodian: Option<string>)

  /** One message of a channel of slack_export.json; an absent `has_attachment` reads as false. */
  datatype SlackMessage = SlackMessage(
    messageId: Option<string>,
    timestamp: Option<string>,
    user: Option<string>,
    custodian: Option<string>,
    text: Option<string>,
    hasAttachment: bool)

  /** A channel; an absent `messages` list reads as empty. */
  datatype Channel = Channel(name: Option<string>, messages: seq<SlackMessage>)

  /** slack_export.json: `time_window` is passed through to the summary unread. */
  datatype SlackExport = SlackExport(workspace: Option<string>, timeWindow: Option<map<string, string>>,
                                     channels: seq<Channel>)

  /** The messages of all channels, channel by channel, each channel's in order. */
  function MessagesOf(channels: seq<Channel>): seq<SlackMessage> {
    if channels == [] then []
    else MessagesOf(channels[..|channels| - 1]) + channels[|channels| - 1].messages
  }

  lemma MessagesOfSnoc(channels: seq<Channel>, ch: Channel)
    ensures MessagesOf(channels + [ch]) == MessagesOf(channels) + ch.messages
  {
    assert (channels + [ch])[..|channels|] == channels;
  }

  /** `d.get(key, default)` for a string field. */
  function GetOr(o: Option<string>, default: string): string {
    if o.Some? then o.value else default
  }

  /** The review categories; the first six are rules, `Uncategorized` the fallback. */
  datatype Category =
    | Recommendation
    | Allocation
    | Performance
    | NonFirmChannel
    | Attachment
    | Supervisory
    | Uncategorized

  /** The label written into summaries and count tables. */
  function Label(c: Category): string {
    match c
    case Recommendation => "Recommendation language"
    case Allocation => "Allocation language"
    case Performance => "Performance language"
    case NonFirmChannel => "Non-firm channel references"
    case Attachment => "Has attachment"
    case Supervisory => "Supervisory involvement"
    case Uncategorized => "Uncategorized"
  }

  function Labels(cs: seq<Category>): (r: seq<string>)
    ensures |r| == |cs|
    ensures forall k :: 0 <= k < |cs| ==> r[k] == Label(cs[k])
  {
    if cs == [] then [] else [Label(cs[0])] + Labels(cs[1..])
  }

  /** Position of a category in the order the rules are tried. */
  function Rank(c: Category): nat {
    match c
    case Recommendation => 0
    case Allocation => 1
    case Performance => 2
    case NonFirmChannel => 3
    case Attachment => 4
    case Supervisory => 5
    case Uncategorized => 6
  }

  /** The six rules, in the order both categorizers try them. */
  const Rules: seq<Category> := [Recommendation, Allocation, Performance, NonFirmChannel, Attachment, Supervisory]

  /** What the rules look at: the lower-cased text, the attachment flag and the custodian. */
  datatype Signals = Signals(text: string, attachment: bool, custodian: string)

  const SupervisoryPrincipal: string := "Supervisory Principal"

  /** `categorize_email`: subject and body joined by a space, and `has_attachment` compared case-insensitively with "true". */
  function EmailSignals(e: Email): Signals {
    Signals(Lower(GetOr(e.subject, "") + " " + GetOr(e.body, "")), Lower(GetOr(e.hasAttachment, "")) == "true",
            GetOr(e.custodian, ""))
  }

  /** `categorize_slack_message`: the text alone, and `has_attachment` as a flag. */
  function SlackSignals(m: SlackMessage): Signals {
    Signals(Lower(GetOr(m.text, "")), m.hasAttachment, GetOr(m.custodian, ""))
  }

  /** Whether a rule fires; the fallback is not a rule and never fires. */
  predicate Fires(c: Category, sig: Signals) {
    match c
    case Recommendation => Contains(sig.text, "recommend")
    case Allocation => Contains(sig.text, "allocation")
    case Performance => Contains(sig.text, "performance")
    case NonFirmChannel =>
      Contains(sig.text, "gmail") || Contains(sig.text, "email me") || Contains(sig.text, "send this later")
    case Attachment => sig.attachment
    case Supervisory => sig.custodian == SupervisoryPrincipal
    case Uncategorized => false
  }

  /** The rules of `rules` that fire, in the order given. */
  function Fired(rules: seq<Category>, sig: Signals): (r: seq<Category>)
    ensures |r| <= |rules|
    ensures forall c :: c in r <==> c in rules && Fires(c, sig)
  {
    if rules == [] then []
    else
      var init, last := rules[..|rules| - 1], rules[|rules| - 1];
      assert rules == init + [last];
      Fired(init, sig) + (if Fires(last, sig) then [last] else [])
  }

  /**
   * The categories of a communication: the rules that fire, or only the
   * fallback when none does; so at least one and at most six.
   */
  function CategoriesOf(sig: Signals): (cs: seq<Category>)
    ensures 1 <= |cs| <= 6
  {
    var f := Fired(Rules, sig);
    if f == [] then [Uncategorized] else f
  }

  predicate RankIncreasing(cs: seq<Category>) {
    forall i, j :: 0 <= i < j < |cs| ==> Rank(cs[i]) < Rank(cs[j])
  }

  /** The rules that fire, in rule order, or nothing. */
  function Step(c: Category, sig: Signals): seq<Category> {
    if Fires(c, sig) then [c] else []
  }

  lemma FiredSnoc(rules: seq<Category>, c: Category, sig: Signals)
    ensures Fired(rules + [c], sig) == Fired(rules, sig) + Step(c, sig)
  {
    assert (rules + [c])[..|rules|] == rules;
  }

  lemma RulesOneByOne()
    ensures Rules == [] + [Recommendation] + [Allocation] + [Performance] + [NonFirmChannel] + [Attachment] + [Supervisory]
  {
  }

  /** The filter over the six rules, one rule at a time. */
  lemma FiredRules(sig: Signals)
    ensures Fired(Rules, sig) == Step(Recommendation, sig) + Step(Allocation, sig) + Step(Performance, sig)
                                 + Step(NonFirmChannel, sig) + Step(Attachment, sig) + Step(Supervisory, sig)
  {
    RulesOneByOne();
    var r0: seq<Category> := [];
    FiredSnoc(r0, Recommendation, sig);
    var r1 := r0 + [Recommendation];
    FiredSnoc(r1, Allocation, sig);
    var r2 := r1 + [Allocation];
    FiredSnoc(r2, Performance, sig);
    var r3 := r2 + [Performance];
    FiredSnoc(r3, NonFirmChannel, sig);
    var r4 := r3 + [NonFirmChannel];
    FiredSnoc(r4, Attachment, sig);
    var r5 := r4 + [Attachment];
    FiredSnoc(r5, Supervisory, sig);
  }

  /** `categorize_email` and `categorize_slack_message`, rule by rule. */
  method Categorize(sig: Signals) returns (cats: seq<Category>)
    ensures cats == CategoriesOf(sig)
  {
    cats := [];
    if Contains(sig.text, "recommend") {
      cats := cats + [Recommendation];
    }
    ghost var fired := Step(Recommendation, sig);
    assert cats == fired;
    if Contains(sig.text, "allocation") {
      cats := cats + [Allocation];
    }
    fired := fired + Step(Allocation, sig);
    assert cats == fired;
    if Contains(sig.text, "performance") {
      cats := cats + [Performance];
    }
    fired := fired + Step(Performance, sig);
    assert cats == fired;
    if Contains(sig.text, "gmail") || Contains(sig.text, "email me") || Contains(sig.text, "send this later") {
      cats := cats + [NonFirmChannel];
    }
    fired := fired + Step(NonFirmChannel, sig);
    assert cats == fired;
    if sig.attachment {
      cats := cats + [Attachment];
    }
    fired := fired + Step(Attachment, sig);
    assert cats == fired;
    if sig.custodian == SupervisoryPrincipal {
      cats := cats + [Supervisory];
    }
    fired := fired + Step(Supervisory, sig);
    assert cats == fired;
    FiredRules(sig);
    if cats == [] {
      cats := [Uncategorized];
    }
  }

  method CategorizeEmail(e: Email) returns (cats: seq<Category>)
    ensures cats == CategoriesOf(EmailSignals(e))
  {
    cats := Categorize(EmailSignals(e));
  }

  method CategorizeSlackMessage(m: SlackMessage) returns (cats: seq<Category>)
    ensures cats == CategoriesOf(SlackSignals(m))
  {
    cats := Categorize(SlackSignals(m));
  }

  /** Filtering keeps the order of the rules it filters. */
  lemma {:induction false} FiredKeepsOrder(rules: seq<Category>, sig: Signals)
    requires RankIncreasing(rules)
    ensures RankIncreasing(Fired(rules, sig))
  {
    if rules != [] {
      var init, last := rules[..|rules| - 1], rules[|rules| - 1];
      assert RankIncreasing(init);
      FiredKeepsOrder(init, sig);
      forall c | c in Fired(init, sig) ensures Rank(c) < Rank(last) {
        var k :| 0 <= k < |init| && init[k] == c;
        assert rules[k] == c;
      }
    }
  }

  /**
   * The categories are exactly the rules that fire, in rule order and
   * without repetition, or `["Uncategorized"]` alone exactly when no rule
   * fires.
   */
  lemma CategoriesSpec(sig: Signals)
    ensures var cs := CategoriesOf(sig);
      && cs != []
      && RankIncreasing(cs)
      && (forall i, j :: 0 <= i < j < |cs| ==> cs[i] != cs[j])
      && (cs == [Uncategorized] <==> forall c | c in Rules :: !Fires(c, sig))
      && (forall c | c != Uncategorized :: c in cs <==> c in Rules && Fires(c, sig))
  {
    assert Uncategorized !in Rules;
    var f := Fired(Rules, sig);
    if f != [] {
      assert f[0] in f;
    }
    FiredKeepsOrder(Rules, sig);
  }

  /** An email is labelled "Has attachment" exactly when its `has_attachment` reads "true" in any letter case. */
  lemma EmailAttachmentRule(e: Email)
    ensures Attachment in CategoriesOf(EmailSignals(e)) <==> Lower(GetOr(e.hasAttachment, "")) == "true"
  {
    assert Attachment in Rules;
  }

  /** A Slack message is labelled "Has attachment" exactly when its `has_attachment` flag is set. */
  lemma SlackAttachmentRule(m: SlackMessage)
    ensures Attachment in CategoriesOf(SlackSignals(m)) <==> m.hasAttachment
  {
    assert Attachment in Rules;
  }

  /** Different categories are written with different labels. */
  lemma LabelsDistinct(a: Category, b: Category)
    requires a != b
    ensures Label(a) != Label(b)
  {
    assert |Label(a)| != |Label(b)| || Label(a)[0] != Label(b)[0];
  }
}
