/**
 * The three count tables of the demo report (`generate_pdf`): counts by
 * custodian, by system and by category. A Python dict keeps its keys in
 * insertion order, so a counting dict is a sequence of (key, count)
 * pairs with distinct keys; the report lists it sorted by key.
 */
module IrpCounts {
  import opened Common
  import opened PyStr
  import Sorting
  import opened IrpRules

  type Table = seq<(string, nat)>

  /** The keys of a table, in order. */
  function Keys(t: Table): (r: seq<string>)
    ensures |r| == |t|
  {
    if t == [] then [] else [t[0].0] + Keys(t[1..])
  }

  /** No key occurs twice. */
  predicate NoDup(s: seq<string>) {
    s == [] || (s[0] !in s[1..] && NoDup(s[1..]))
  }

  /** `counts.get(key, 0)`. */
  function Lookup(t: Table, key: string): nat {
    if t == [] then 0 else if t[0].0 == key then t[0].1 else Lookup(t[1..], key)
  }

  /** The sum of the counts. */
  function Total(t: Table): nat {
    if t == [] then 0 else t[0].1 + Total(t[1..])
  }

  /** `counts[key] = counts.get(key, 0) + 1`: bump an existing key in place, or add it at the end with 1. */
  function Bump(t: Table, key: string): Table {
    if t == [] then [(key, 1)]
    else if t[0].0 == key then [(key, t[0].1 + 1)] + t[1..]
    else [t[0]] + Bump(t[1..], key)
  }

  /** The counting dict after counting `keys` one by one from empty. */
  function Tally(keys: seq<string>): Table {
    if keys == [] then [] else Bump(Tally(keys[..|keys| - 1]), keys[|keys| - 1])
  }

  lemma TallySnoc(keys: seq<string>, key: string)
    ensures Tally(keys + [key]) == Bump(Tally(keys), key)
  {
    assert (keys + [key])[..|keys|] == keys;
  }

  /** A bump keeps the keys, in order, adding its key at the end when it is new. */
  lemma {:induction false} BumpKeys(t: Table, key: string)
    ensures Keys(Bump(t, key)) == if key in Keys(t) then Keys(t) else Keys(t) + [key]
  {
    if t != [] {
      BumpKeys(t[1..], key);
      assert Keys(t) == [t[0].0] + Keys(t[1..]);
    }
  }

  lemma {:induction false} NoDupSnoc(s: seq<string>, x: string)
    requires NoDup(s) && x !in s
    ensures NoDup(s + [x])
  {
    if s != [] {
      NoDupSnoc(s[1..], x);
      assert (s + [x])[1..] == s[1..] + [x];
    }
  }

  /** One bump adds one to its key's count and leaves every other count alone. */
  lemma {:induction false} BumpLookup(t: Table, key: string, other: string)
    ensures Lookup(Bump(t, key), other) == Lookup(t, other) + (if other == key then 1 else 0)
  {
    if t != [] && t[0].0 != key {
      BumpLookup(t[1..], key, other);
    }
  }

  lemma {:induction false} BumpTotal(t: Table, key: string)
    ensures Total(Bump(t, key)) == Total(t) + 1
  {
    if t != [] && t[0].0 != key {
      BumpTotal(t[1..], key);
    } else if t != [] {
      assert Bump(t, key)[1..] == t[1..];
    }
  }

  lemma {:induction false} TallyKeys(keys: seq<string>)
    ensures NoDup(Keys(Tally(keys)))
    ensures forall k :: k in Keys(Tally(keys)) <==> k in keys
  {
    if keys != [] {
      var init, last := keys[..|keys| - 1], keys[|keys| - 1];
      assert keys == init + [last];
      TallyKeys(init);
      BumpKeys(Tally(init), last);
      if last !in Keys(Tally(init)) {
        NoDupSnoc(Keys(Tally(init)), last);
      }
    }
  }

  lemma {:induction false} TallyLookup(keys: seq<string>, k: string)
    ensures Lookup(Tally(keys), k) == multiset(keys)[k]
  {
    if keys != [] {
      var init, last := keys[..|keys| - 1], keys[|keys| - 1];
      assert keys == init + [last];
      TallyLookup(init, k);
      BumpLookup(Tally(init), last, k);
    }
  }

  lemma {:induction false} TallyTotal(keys: seq<string>)
    ensures Total(Tally(keys)) == |keys|
  {
    if keys != [] {
      TallyTotal(keys[..|keys| - 1]);
      BumpTotal(Tally(keys[..|keys| - 1]), keys[|keys| - 1]);
    }
  }

  /**
   * Counting a list of keys gives each key the number of times it occurs,
   * lists each key that occurs exactly once and no other, and the counts
   * add up to the length of the list.
   */
  lemma TallySpec(keys: seq<string>)
    ensures NoDup(Keys(Tally(keys)))
    ensures forall k :: k in Keys(Tally(keys)) <==> k in keys
    ensures forall k :: Lookup(Tally(keys), k) == multiset(keys)[k]
    ensures Total(Tally(keys)) == |keys|
  {
    TallyKeys(keys);
    forall k ensures Lookup(Tally(keys), k) == multiset(keys)[k] {
      TallyLookup(keys, k);
    }
    TallyTotal(keys);
  }

  // ---------------------------------------------------------------------
  // What is counted

  /** `email.get('custodian', 'Unknown')` for each email. */
  function EmailCustodians(emails: seq<Email>): seq<string> {
    if emails == [] then []
    else EmailCustodians(emails[..|emails| - 1]) + [GetOr(emails[|emails| - 1].custodian, "Unknown")]
  }

  /** `msg.get('custodian', 'Unknown')` for each message. */
  function MessageCustodians(msgs: seq<SlackMessage>): seq<string> {
    if msgs == [] then []
    else MessageCustodians(msgs[..|msgs| - 1]) + [GetOr(msgs[|msgs| - 1].custodian, "Unknown")]
  }

  /** One custodian per communication: the emails first, then the messages channel by channel. */
  function CustodianKeys(emails: seq<Email>, slack: SlackExport): seq<string> {
    EmailCustodians(emails) + MessageCustodians(MessagesOf(slack.channels))
  }

  /** The labels of each element, one element after another. */
  function FlatMap<T>(s: seq<T>, f: T -> seq<string>): seq<string> {
    if s == [] then [] else FlatMap(s[..|s| - 1], f) + f(s[|s| - 1])
  }

  lemma FlatMapSnoc<T>(s: seq<T>, x: T, f: T -> seq<string>)
    ensures FlatMap(s + [x], f) == FlatMap(s, f) + f(x)
  {
    assert (s + [x])[..|s|] == s;
  }

  /** Each element contributes between one and six labels. */
  lemma {:induction false} FlatMapLength<T>(s: seq<T>, f: T -> seq<string>)
    requires forall x :: 1 <= |f(x)| <= 6
    ensures |s| <= |FlatMap(s, f)| <= 6 * |s|
  {
    if s != [] {
      FlatMapLength(s[..|s| - 1], f);
    }
  }

  function EmailLabels(e: Email): seq<string> {
    Labels(CategoriesOf(EmailSignals(e)))
  }

  function MessageLabels(m: SlackMessage): seq<string> {
    Labels(CategoriesOf(SlackSignals(m)))
  }

  /** The labels of every communication: the emails first, then the messages channel by channel. */
  function CategoryKeys(emails: seq<Email>, slack: SlackExport): seq<string> {
    FlatMap(emails, EmailLabels) + FlatMap(MessagesOf(slack.channels), MessageLabels)
  }

  // ---------------------------------------------------------------------
  // The counting loops

  lemma EmailCustodianStep(emails: seq<Email>, i: nat)
    requires i < |emails|
    ensures Tally(EmailCustodians(emails[..i + 1])) ==
            Bump(Tally(EmailCustodians(emails[..i])), GetOr(emails[i].custodian, "Unknown"))
  {
    assert emails[..i + 1][..i] == emails[..i];
    TallySnoc(EmailCustodians(emails[..i]), GetOr(emails[i].custodian, "Unknown"));
  }

  lemma MessageCustodianStep(pre: seq<string>, before: seq<SlackMessage>, msgs: seq<SlackMessage>, j: nat)
    requires j < |msgs|
    ensures Tally(pre + MessageCustodians(before + msgs[..j + 1])) ==
            Bump(Tally(pre + MessageCustodians(before + msgs[..j])), GetOr(msgs[j].custodian, "Unknown"))
  {
    var cust := GetOr(msgs[j].custodian, "Unknown");
    assert (before + msgs[..j + 1])[..|before + msgs[..j]|] == before + msgs[..j];
    assert pre + MessageCustodians(before + msgs[..j + 1]) == (pre + MessageCustodians(before + msgs[..j])) + [cust];
    TallySnoc(pre + MessageCustodians(before + msgs[..j]), cust);
  }

  /** Past the last message of channel `c`, the messages seen are those of the first `c + 1` channels. */
  lemma ChannelDone(channels: seq<Channel>, c: nat)
    requires c < |channels|
    ensures MessagesOf(channels[..c]) + channels[c].messages[..|channels[c].messages|] == MessagesOf(channels[..c + 1])
  {
    assert channels[c].messages[..|channels[c].messages|] == channels[c].messages;
    assert channels[..c + 1] == channels[..c] + [channels[c]];
    MessagesOfSnoc(channels[..c], channels[c]);
  }

  /** The custodian table: one count per communication. */
  method CountByCustodian(emails: seq<Email>, slack: SlackExport) returns (counts: Table)
    ensures counts == Tally(CustodianKeys(emails, slack))
  {
    counts := [];
    assert emails[..0] == [];
    for i := 0 to |emails|
      invariant counts == Tally(EmailCustodians(emails[..i]))
    {
      EmailCustodianStep(emails, i);
      counts := Bump(counts, GetOr(emails[i].custodian, "Unknown"));
    }
    assert emails[..|emails|] == emails;
    counts := CountMessageCustodians(counts, EmailCustodians(emails), slack.channels);
  }

  /** The Slack half of the custodian table, added to the counts of the keys in `pre`. */
  method CountMessageCustodians(counts: Table, ghost pre: seq<string>, channels: seq<Channel>) returns (r: Table)
    requires counts == Tally(pre)
    ensures r == Tally(pre + MessageCustodians(MessagesOf(channels)))
  {
    r := counts;
    assert pre + MessageCustodians(MessagesOf(channels[..0])) == pre by { assert channels[..0] == []; }
    for c := 0 to |channels|
      invariant r == Tally(pre + MessageCustodians(MessagesOf(channels[..c])))
    {
      var msgs := channels[c].messages;
      ghost var before := MessagesOf(channels[..c]);
      assert before + msgs[..0] == before;
      for j := 0 to |msgs|
        invariant r == Tally(pre + MessageCustodians(before + msgs[..j]))
      {
        MessageCustodianStep(pre, before, msgs, j);
        r := Bump(r, GetOr(msgs[j].custodian, "Unknown"));
      }
      ChannelDone(channels, c);
    }
    assert channels[..|channels|] == channels;
  }

  /** Counts the labels of one communication into `counts`. */
  method CountLabels(counts: Table, ghost seen: seq<string>, categories: seq<Category>) returns (r: Table)
    requires counts == Tally(seen)
    ensures r == Tally(seen + Labels(categories))
  {
    r := counts;
    assert seen + Labels(categories[..0]) == seen by { assert categories[..0] == []; }
    for k := 0 to |categories|
      invariant r == Tally(seen + Labels(categories[..k]))
    {
      LabelStep(seen, categories, k);
      r := Bump(r, Label(categories[k]));
    }
    assert categories[..|categories|] == categories;
  }

  lemma LabelStep(seen: seq<string>, categories: seq<Category>, k: nat)
    requires k < |categories|
    ensures Tally(seen + Labels(categories[..k + 1])) == Bump(Tally(seen + Labels(categories[..k])), Label(categories[k]))
  {
    assert Labels(categories[..k + 1]) == Labels(categories[..k]) + [Label(categories[k])];
    assert seen + Labels(categories[..k + 1]) == (seen + Labels(categories[..k])) + [Label(categories[k])];
    TallySnoc(seen + Labels(categories[..k]), Label(categories[k]));
  }

  lemma EmailLabelStep(emails: seq<Email>, i: nat, categories: seq<Category>)
    requires i < |emails| && categories == CategoriesOf(EmailSignals(emails[i]))
    ensures FlatMap(emails[..i + 1], EmailLabels) == FlatMap(emails[..i], EmailLabels) + Labels(categories)
  {
    assert emails[..i + 1] == emails[..i] + [emails[i]];
    FlatMapSnoc(emails[..i], emails[i], EmailLabels);
  }

  lemma MessageLabelStep(pre: seq<string>, before: seq<SlackMessage>, msgs: seq<SlackMessage>, j: nat,
                         categories: seq<Category>)
    requires j < |msgs| && categories == CategoriesOf(SlackSignals(msgs[j]))
    ensures pre + FlatMap(before + msgs[..j + 1], MessageLabels) ==
            (pre + FlatMap(before + msgs[..j], MessageLabels)) + Labels(categories)
  {
    assert before + msgs[..j + 1] == (before + msgs[..j]) + [msgs[j]];
    FlatMapSnoc(before + msgs[..j], msgs[j], MessageLabels);
  }

  /** The category table: one count per label per communication. */
  method CountByCategory(emails: seq<Email>, slack: SlackExport) returns (counts: Table)
    ensures counts == Tally(CategoryKeys(emails, slack))
  {
    counts := [];
    assert emails[..0] == [];
    for i := 0 to |emails|
      invariant counts == Tally(FlatMap(emails[..i], EmailLabels))
    {
      var categories := CategorizeEmail(emails[i]);
      EmailLabelStep(emails, i, categories);
      counts := CountLabels(counts, FlatMap(emails[..i], EmailLabels), categories);
    }
    assert emails[..|emails|] == emails;
    counts := CountMessageLabels(counts, FlatMap(emails, EmailLabels), slack.channels);
  }

  /** The Slack half of the category table, added to the counts of the keys in `pre`. */
  method CountMessageLabels(counts: Table, ghost pre: seq<string>, channels: seq<Channel>) returns (r: Table)
    requires counts == Tally(pre)
    ensures r == Tally(pre + FlatMap(MessagesOf(channels), MessageLabels))
  {
    r := counts;
    assert pre + FlatMap(MessagesOf(channels[..0]), MessageLabels) == pre by { assert channels[..0] == []; }
    for c := 0 to |channels|
      invariant r == Tally(pre + FlatMap(MessagesOf(channels[..c]), MessageLabels))
    {
      r := CountChannelLabels(r, pre, MessagesOf(channels[..c]), channels[c].messages);
      ChannelDone(channels, c);
    }
    assert channels[..|channels|] == channels;
  }

  /** One channel's messages, counted after the messages `before` it. */
  method CountChannelLabels(counts: Table, ghost pre: seq<string>, ghost before: seq<SlackMessage>,
                            msgs: seq<SlackMessage>) returns (r: Table)
    requires counts == Tally(pre + FlatMap(before, MessageLabels))
    ensures r == Tally(pre + FlatMap(before + msgs[..|msgs|], MessageLabels))
  {
    r := counts;
    assert before + msgs[..0] == before;
    for j := 0 to |msgs|
      invariant r == Tally(pre + FlatMap(before + msgs[..j], MessageLabels))
    {
      var categories := CategorizeSlackMessage(msgs[j]);
      MessageLabelStep(pre, before, msgs, j, categories);
      r := CountLabels(r, pre + FlatMap(before + msgs[..j], MessageLabels), categories);
    }
  }

  // ---------------------------------------------------------------------
  // The system table and how the tables agree

  /** `sum(len(ch.get('messages', [])) for ch in channels)`. */
  function SlackCount(channels: seq<Channel>): nat {
    if channels == [] then 0 else SlackCount(channels[..|channels| - 1]) + |channels[|channels| - 1].messages|
  }

  /** Rows Email, Slack and Total of the system table. */
  function SystemCounts(emails: seq<Email>, slack: SlackExport): (nat, nat, nat) {
    (|emails|, SlackCount(slack.channels), |emails| + SlackCount(slack.channels))
  }

  lemma {:induction false} SlackCountIsMessages(channels: seq<Channel>)
    ensures SlackCount(channels) == |MessagesOf(channels)|
  {
    if channels != [] {
      SlackCountIsMessages(channels[..|channels| - 1]);
    }
  }

  /** Every communication has between one and six categories. */
  lemma LabelCounts()
    ensures forall e :: 1 <= |EmailLabels(e)| <= 6
    ensures forall m :: 1 <= |MessageLabels(m)| <= 6
  {
  }

  /** The custodian table accounts for every communication exactly once: its counts add up to the system total. */
  lemma CustodianTableTotal(emails: seq<Email>, slack: SlackExport)
    ensures Total(Tally(CustodianKeys(emails, slack))) == SystemCounts(emails, slack).2
  {
    TallySpec(CustodianKeys(emails, slack));
    SlackCountIsMessages(slack.channels);
    EmailCustodiansLength(emails);
    MessageCustodiansLength(MessagesOf(slack.channels));
  }

  lemma {:induction false} EmailCustodiansLength(emails: seq<Email>)
    ensures |EmailCustodians(emails)| == |emails|
  {
    if emails != [] {
      EmailCustodiansLength(emails[..|emails| - 1]);
    }
  }

  lemma {:induction false} MessageCustodiansLength(msgs: seq<SlackMessage>)
    ensures |MessageCustodians(msgs)| == |msgs|
  {
    if msgs != [] {
      MessageCustodiansLength(msgs[..|msgs| - 1]);
    }
  }

  /** The category table counts each communication at least once and at most six times. */
  lemma CategoryTableTotal(emails: seq<Email>, slack: SlackExport)
    ensures var total := SystemCounts(emails, slack).2;
      total <= Total(Tally(CategoryKeys(emails, slack))) <= 6 * total
  {
    TallySpec(CategoryKeys(emails, slack));
    SlackCountIsMessages(slack.channels);
    LabelCounts();
    FlatMapLength(emails, EmailLabels);
    FlatMapLength(MessagesOf(slack.channels), MessageLabels);
  }

  /** `sorted(counts.items())`: keys are distinct, so the rows come in key order. */
  predicate KeyNoLater(a: (string, nat), b: (string, nat)) {
    StrLe(a.0, b.0)
  }

  /** The rows of a count table as the report lists them. */
  function TableRows(counts: Table): (r: Table)
    ensures multiset(r) == multiset(counts)
    ensures Sorting.SortedBy(r, KeyNoLater)
  {
    StrLeIsTotalPreorder();
    Sorting.SortSorted(counts, KeyNoLater);
    Sorting.Sort(counts, KeyNoLater)
  }
}
