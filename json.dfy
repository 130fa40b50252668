/**
 * Python's `json.dumps(value, sort_keys=True)` with the default
 * `ensure_ascii=True`, with or without `indent`, over the values that
 * appear in the modelled documents. A `bytes` value anywhere makes
 * `json.dumps` raise TypeError; here the result is then None.
 */
module Json {
  import opened Common
  import opened PyStr
  import Sorting

  /** A Python value as `json.dumps` sees it; a dict keeps its insertion order. */
  datatype PyValue =
    | PNull
    | PBool(b: bool)
    | PInt(i: int)
    | PStr(s: string)
    | PBytes(bytes: Bytes)
    | PList(items: seq<PyValue>)
    | PDict(entries: seq<(string, PyValue)>)

  /** True when a `bytes` value occurs anywhere inside `v`. */
  predicate ContainsBytes(v: PyValue) {
    match v
    case PBytes(_) => true
    case PList(items) => exists i :: 0 <= i < |items| && ContainsBytes(items[i])
    case PDict(entries) => exists i :: 0 <= i < |entries| && ContainsBytes(entries[i].1)
    case _ => false
  }

  function DigitChar(d: nat): char
    requires d < 16
  {
    if d < 10 then ('0' as int + d) as char else ('a' as int + d - 10) as char
  }

  /** Four lower-case hex digits, as in `'\\u{0:04x}'`. */
  function Hex4(n: nat): string
    requires n < 0x10000
  {
    [DigitChar(n / 4096), DigitChar((n / 256) % 16), DigitChar((n / 16) % 16), DigitChar(n % 16)]
  }

  /** One character as `ensure_ascii` writes it inside a JSON string. */
  function EscapeChar(c: char): (r: string)
    ensures 1 <= |r| <= 12
  {
    var n := c as int;
    if c == '"' then "\\\""
    else if c == '\\' then "\\\\"
    else if c == '\n' then "\\n"
    else if c == '\r' then "\\r"
    else if c == '\t' then "\\t"
    else if n == 8 then "\\b"
    else if n == 12 then "\\f"
    else if ' ' <= c <= '~' then [c]
    else if n < 0x10000 then "\\u" + Hex4(n)
    else
      var m := n - 0x10000;
      "\\u" + Hex4(0xD800 + m / 1024) + "\\u" + Hex4(0xDC00 + m % 1024)
  }

  function EscapeString(s: string): (r: string)
    ensures |s| <= |r| <= 12 * |s|
  {
    if s == [] then "" else EscapeChar(s[0]) + EscapeString(s[1..])
  }

  /** A JSON string literal. */
  function Quote(s: string): string {
    "\"" + EscapeString(s) + "\""
  }

  function NatDigits(n: nat): (r: string)
    ensures r != []
    decreases n
  {
    if n < 10 then [DigitChar(n)] else NatDigits(n / 10) + [DigitChar(n % 10)]
  }

  /** `repr(i)` for an int. */
  function IntRepr(i: int): string {
    if i < 0 then "-" + NatDigits(-i) else NatDigits(i)
  }

  function Spaces(n: nat): (r: string)
    ensures |r| == n
  {
    if n == 0 then "" else " " + Spaces(n - 1)
  }

  /** What is written after `[`/`{` and between items: a newline and indentation, or nothing. */
  function Newline(indent: Option<nat>, level: nat): string {
    match indent
    case None => ""
    case Some(k) => "\n" + Spaces(k * level)
  }

  /** `item_separator`: `", "` without indent, `","` with it, followed by the newline. */
  function ItemSeparator(indent: Option<nat>, level: nat): string {
    match indent
    case None => ", "
    case Some(_) => "," + Newline(indent, level)
  }

  function KeyLe(a: (string, string), b: (string, string)): bool {
    StrLe(a.0, b.0)
  }

  function Member(entry: (string, string)): string {
    Quote(entry.0) + ": " + entry.1
  }

  function Members(entries: seq<(string, string)>): (r: seq<string>)
    ensures |r| == |entries|
    ensures forall i :: 0 <= i < |entries| ==> r[i] == Member(entries[i])
  {
    if entries == [] then [] else [Member(entries[0])] + Members(entries[1..])
  }

  /** The JSON text of `v` nested at depth `level`; None when `v` holds bytes. */
  function Encode(v: PyValue, indent: Option<nat>, level: nat): Option<string>
    decreases v, 1
  {
    match v
    case PNull => Some("null")
    case PBool(b) => Some(if b then "true" else "false")
    case PInt(i) => Some(IntRepr(i))
    case PStr(s) => Some(Quote(s))
    case PBytes(_) => None
    case PList(items) =>
      if items == [] then Some("[]")
      else
        (match EncodeItems(v, items, indent, level + 1)
         case None => None
         case Some(parts) =>
           Some("[" + Newline(indent, level + 1) + Join(ItemSeparator(indent, level + 1), parts)
                + Newline(indent, level) + "]"))
    case PDict(entries) =>
      if entries == [] then Some("{}")
      else
        match EncodeEntries(v, entries, indent, level + 1)
        case None => None
        case Some(pairs) =>
          var sorted := Sorting.Sort(pairs, KeyLe);
          Some("{" + Newline(indent, level + 1) + Join(ItemSeparator(indent, level + 1), Members(sorted))
               + Newline(indent, level) + "}")
  }

  /** The encodings of the elements of a list, in order. */
  function EncodeItems(ghost parent: PyValue, items: seq<PyValue>, indent: Option<nat>, level: nat): (r: Option<seq<string>>)
    requires forall i :: 0 <= i < |items| ==> items[i] < parent
    ensures r.Some? ==> |r.value| == |items|
    decreases parent, 0, |items|
  {
    if items == [] then Some([])
    else
      match Encode(items[0], indent, level)
      case None => None
      case Some(first) =>
        match EncodeItems(parent, items[1..], indent, level)
        case None => None
        case Some(rest) => Some([first] + rest)
  }

  /** Each key of a dict with the encoding of its value, in insertion order. */
  function EncodeEntries(ghost parent: PyValue, entries: seq<(string, PyValue)>, indent: Option<nat>, level: nat)
    : (r: Option<seq<(string, string)>>)
    requires forall i :: 0 <= i < |entries| ==> entries[i].1 < parent
    ensures r.Some? ==> |r.value| == |entries|
    ensures r.Some? ==> forall i :: 0 <= i < |entries| ==> r.value[i].0 == entries[i].0
    decreases parent, 0, |entries|
  {
    if entries == [] then Some([])
    else
      match Encode(entries[0].1, indent, level)
      case None => None
      case Some(first) =>
        match EncodeEntries(parent, entries[1..], indent, level)
        case None => None
        case Some(rest) => Some([(entries[0].0, first)] + rest)
  }

  /** `json.dumps(v, sort_keys=True, indent=...)`; None where Python raises TypeError. */
  function Dumps(v: PyValue, indent: Option<nat>): Option<string> {
    Encode(v, indent, 0)
  }

  /** Serialisation fails exactly when a bytes value is present somewhere. */
  lemma {:induction false} EncodeFailsIffBytes(v: PyValue, indent: Option<nat>, level: nat)
    ensures Encode(v, indent, level).None? <==> ContainsBytes(v)
    decreases v, 1
  {
    match v
    case PList(items) =>
      if items != [] {
        ItemsFailIffBytes(v, items, indent, level + 1);
      }
    case PDict(entries) =>
      if entries != [] {
        EntriesFailIffBytes(v, entries, indent, level + 1);
      }
    case _ =>
  }

  lemma {:induction false} ItemsFailIffBytes(parent: PyValue, items: seq<PyValue>, indent: Option<nat>, level: nat)
    requires forall i :: 0 <= i < |items| ==> items[i] < parent
    ensures EncodeItems(parent, items, indent, level).None? <==>
            exists i :: 0 <= i < |items| && ContainsBytes(items[i])
    decreases parent, 0, |items|
  {
    if items != [] {
      EncodeFailsIffBytes(items[0], indent, level);
      ItemsFailIffBytes(parent, items[1..], indent, level);
      if exists i :: 0 <= i < |items| && ContainsBytes(items[i]) {
        var i :| 0 <= i < |items| && ContainsBytes(items[i]);
        if i > 0 { assert items[1..][i - 1] == items[i]; }
      }
    }
  }

  lemma {:induction false} EntriesFailIffBytes(parent: PyValue, entries: seq<(string, PyValue)>, indent: Option<nat>, level: nat)
    requires forall i :: 0 <= i < |entries| ==> entries[i].1 < parent
    ensures EncodeEntries(parent, entries, indent, level).None? <==>
            exists i :: 0 <= i < |entries| && ContainsBytes(entries[i].1)
    decreases parent, 0, |entries|
  {
    if entries != [] {
      EncodeFailsIffBytes(entries[0].1, indent, level);
      EntriesFailIffBytes(parent, entries[1..], indent, level);
      if exists i :: 0 <= i < |entries| && ContainsBytes(entries[i].1) {
        var i :| 0 <= i < |entries| && ContainsBytes(entries[i].1);
        if i > 0 { assert entries[1..][i - 1] == entries[i]; }
      }
    }
  }

  /** `json.dumps` succeeds exactly when the value holds no bytes. */
  lemma DumpsFailsIffBytes(v: PyValue, indent: Option<nat>)
    ensures Dumps(v, indent).None? <==> ContainsBytes(v)
  {
    EncodeFailsIffBytes(v, indent, 0);
  }
  // ---------------------------------------------------------------------
  // A bound on the length of the compact text

  /** The sum of the lengths of some strings. */
  function LenSum(ss: seq<string>): nat {
    if ss == [] then 0 else |ss[0]| + LenSum(ss[1..])
  }

  lemma {:induction false} LenSumAppend(a: seq<string>, b: seq<string>)
    ensures LenSum(a + b) == LenSum(a) + LenSum(b)
  {
    if a == [] {
      assert a + b == b;
    } else {
      assert (a + b)[1..] == a[1..] + b;
      LenSumAppend(a[1..], b);
    }
  }

  /** A join is its parts plus one separator between each two. */
  lemma {:induction false} JoinLength(sep: string, parts: seq<string>)
    requires parts != []
    ensures |Join(sep, parts)| == LenSum(parts) + |sep| * (|parts| - 1)
  {
    if |parts| > 1 {
      JoinLength(sep, parts[1..]);
    }
  }

  lemma MembersAppend(a: seq<(string, string)>, b: seq<(string, string)>)
    ensures Members(a + b) == Members(a) + Members(b)
  {
    var l, r := Members(a + b), Members(a) + Members(b);
    assert |l| == |r|;
    forall i | 0 <= i < |l| ensures l[i] == r[i] {
      if i < |a| {
        assert (a + b)[i] == a[i] && r[i] == Members(a)[i];
      } else {
        assert (a + b)[i] == b[i - |a|] && r[i] == Members(b)[i - |a|];
      }
    }
  }

  lemma {:induction false} InsertLenSum(s: seq<(string, string)>, x: (string, string))
    ensures LenSum(Members(Sorting.Insert(s, x, KeyLe))) == LenSum(Members(s)) + |Member(x)|
  {
    if s == [] {
    } else if KeyLe(s[|s| - 1], x) {
      MembersAppend(s, [x]);
      LenSumAppend(Members(s), Members([x]));
    } else {
      var init, last := s[..|s| - 1], s[|s| - 1];
      assert s == init + [last];
      InsertLenSum(init, x);
      MembersAppend(Sorting.Insert(init, x, KeyLe), [last]);
      LenSumAppend(Members(Sorting.Insert(init, x, KeyLe)), Members([last]));
      MembersAppend(init, [last]);
      LenSumAppend(Members(init), Members([last]));
    }
  }

  /** Sorting the members of a dict does not change their total length. */
  lemma {:induction false} SortLenSum(s: seq<(string, string)>)
    ensures LenSum(Members(Sorting.Sort(s, KeyLe))) == LenSum(Members(s))
  {
    if s != [] {
      var init, last := s[..|s| - 1], s[|s| - 1];
      assert s == init + [last];
      SortLenSum(init);
      InsertLenSum(Sorting.Sort(init, KeyLe), last);
      MembersAppend(init, [last]);
      LenSumAppend(Members(init), Members([last]));
    }
  }

  /**
   * An upper bound on the length of the compact text of `v`: a string
   * costs its quotes and at most twelve characters per character, and
   * every list element or dict member at most two more for its separator.
   */
  function Size(v: PyValue): nat
    decreases v, 1
  {
    match v
    case PNull => 4
    case PBool(_) => 5
    case PInt(i) => |IntRepr(i)|
    case PStr(s) => 2 + 12 * |s|
    case PBytes(_) => 0
    case PList(items) => 2 + ItemsSize(v, items)
    case PDict(entries) => 2 + EntriesSize(v, entries)
  }

  function ItemsSize(ghost parent: PyValue, items: seq<PyValue>): nat
    requires forall i :: 0 <= i < |items| ==> items[i] < parent
    decreases parent, 0, |items|
  {
    if items == [] then 0 else Size(items[0]) + 2 + ItemsSize(parent, items[1..])
  }

  function EntriesSize(ghost parent: PyValue, entries: seq<(string, PyValue)>): nat
    requires forall i :: 0 <= i < |entries| ==> entries[i].1 < parent
    decreases parent, 0, |entries|
  {
    if entries == [] then 0
    else 2 + 12 * |entries[0].0| + 2 + Size(entries[0].1) + 2 + EntriesSize(parent, entries[1..])
  }

  /** Without indentation, the text of `v` is never longer than `Size(v)`. */
  lemma {:induction false} EncodeSize(v: PyValue, level: nat)
    requires Encode(v, None, level).Some?
    ensures |Encode(v, None, level).value| <= Size(v)
    decreases v, 2
  {
    match v
    case PList(items) => ListSize(v, level);
    case PDict(entries) => DictSize(v, level);
    case _ =>
  }

  lemma {:induction false} ListSize(v: PyValue, level: nat)
    requires v.PList? && Encode(v, None, level).Some?
    ensures |Encode(v, None, level).value| <= Size(v)
    decreases v, 1
  {
    var items := v.items;
    if items != [] {
      var parts := EncodeItems(v, items, None, level + 1).value;
      assert Encode(v, None, level).value == "[" + "" + Join(", ", parts) + "" + "]";
      ItemsWithinSize(v, items, level + 1);
      JoinLength(", ", parts);
    }
  }

  lemma {:induction false} DictSize(v: PyValue, level: nat)
    requires v.PDict? && Encode(v, None, level).Some?
    ensures |Encode(v, None, level).value| <= Size(v)
    decreases v, 1
  {
    var entries := v.entries;
    if entries != [] {
      var pairs := EncodeEntries(v, entries, None, level + 1).value;
      var sorted := Sorting.Sort(pairs, KeyLe);
      var body := Join(", ", Members(sorted));
      assert |Encode(v, None, level).value| == |body| + 2 by {
        assert Newline(None, level + 1) == "" && Newline(None, level) == "" && ItemSeparator(None, level + 1) == ", ";
        assert Encode(v, None, level).value == "{" + "" + body + "" + "}";
      }
      var n := |entries|;
      assert |pairs| == n && |Members(sorted)| == n;
      EntriesWithinSize(v, entries, level + 1);
      SortLenSum(pairs);
      JoinLength(", ", Members(sorted));
      assert |", "| == 2;
      assert |body| == LenSum(Members(pairs)) + 2 * (n - 1);
      assert Size(v) == 2 + EntriesSize(v, entries);
    }
  }

  lemma {:induction false} ItemsWithinSize(parent: PyValue, items: seq<PyValue>, level: nat)
    requires forall i :: 0 <= i < |items| ==> items[i] < parent
    requires EncodeItems(parent, items, None, level).Some?
    ensures LenSum(EncodeItems(parent, items, None, level).value) + 2 * |items| <= ItemsSize(parent, items)
    decreases parent, 0, |items|
  {
    if items != [] {
      EncodeSize(items[0], level);
      ItemsWithinSize(parent, items[1..], level);
    }
  }

  lemma {:induction false} EntriesWithinSize(parent: PyValue, entries: seq<(string, PyValue)>, level: nat)
    requires forall i :: 0 <= i < |entries| ==> entries[i].1 < parent
    requires EncodeEntries(parent, entries, None, level).Some?
    ensures LenSum(Members(EncodeEntries(parent, entries, None, level).value)) + 2 * |entries|
            <= EntriesSize(parent, entries)
    decreases parent, 0, |entries|
  {
    if entries != [] {
      EncodeSize(entries[0].1, level);
      EntriesWithinSize(parent, entries[1..], level);
      var r := EncodeEntries(parent, entries, None, level).value;
      assert Members(r) == [Member(r[0])] + Members(r[1..]);
    }
  }

  function Pow10(k: nat): nat {
    if k == 0 then 1 else 10 * Pow10(k - 1)
  }

  /** A number below 10^k has at most k digits. */
  lemma {:induction false} NatDigitsLength(n: nat, k: nat)
    requires 1 <= k && n < Pow10(k)
    ensures |NatDigits(n)| <= k
    decreases n
  {
    if n >= 10 {
      if k == 1 {
        assert false;
      }
      NatDigitsLength(n / 10, k - 1);
    }
  }
}
