/**
 * The few Python string operations the modelled code relies on:
 * `str.isspace`, `str.split()` with no argument, `sep.join(parts)`,
 * `str.strip()`, `kw in text`, ASCII `str.lower()`, and the code-point
 * ordering that `<`, `min`, `max` and `sorted` use on strings.
 */
module PyStr {

  /**
   * `c.isspace()`: the characters Python treats as whitespace when
   * splitting or stripping (Unicode White_Space plus U+001C..U+001F).
   */
  predicate IsSpace(c: char) {
    var n := c as int;
    (9 <= n <= 13) || (28 <= n <= 32) || n == 0x85 || n == 0xA0 || n == 0x1680
    || (0x2000 <= n <= 0x200A) || n == 0x2028 || n == 0x2029 || n == 0x202F
    || n == 0x205F || n == 0x3000
  }

  /** A token of `str.split()`: non-empty and free of whitespace. */
  predicate IsWord(w: string) {
    w != [] && forall i :: 0 <= i < |w| ==> !IsSpace(w[i])
  }

  predicate AllWords(ws: seq<string>) {
    forall k :: 0 <= k < |ws| ==> IsWord(ws[k])
  }

  /** Length of the longest whitespace-free prefix of `s`. */
  function LeadingRun(s: string): (n: nat)
    ensures n <= |s|
    ensures forall i :: 0 <= i < n ==> !IsSpace(s[i])
    ensures n < |s| ==> IsSpace(s[n])
  {
    if s == [] || IsSpace(s[0]) then 0 else 1 + LeadingRun(s[1..])
  }

  /** `s.split()`: the maximal whitespace-free runs of `s`, in order. */
  function Split(s: string): (ws: seq<string>)
    decreases |s|
  {
    if s == [] then []
    else if IsSpace(s[0]) then Split(s[1..])
    else
      var n := LeadingRun(s);
      [s[..n]] + Split(s[n..])
  }

  /** `sep.join(parts)`. */
  function Join(sep: string, parts: seq<string>): string {
    if parts == [] then ""
    else if |parts| == 1 then parts[0]
    else parts[0] + sep + Join(sep, parts[1..])
  }

  function LStrip(s: string): string {
    if s != [] && IsSpace(s[0]) then LStrip(s[1..]) else s
  }

  function RStrip(s: string): string {
    if s != [] && IsSpace(s[|s| - 1]) then RStrip(s[..|s| - 1]) else s
  }

  /** `s.strip()` with no argument. */
  function Strip(s: string): string {
    RStrip(LStrip(s))
  }

  /** `kw in text` for strings: `kw` occurs as a contiguous substring. */
  predicate Contains(text: string, kw: string) {
    kw <= text || (text != [] && Contains(text[1..], kw))
  }

  function LowerChar(c: char): char {
    if 'A' <= c <= 'Z' then (c as int + 32) as char else c
  }

  /** `s.lower()`, restricted to ASCII letters. */
  function Lower(s: string): (r: string)
    ensures |r| == |s|
    ensures forall i :: 0 <= i < |s| ==> r[i] == LowerChar(s[i])
  {
    if s == [] then [] else [LowerChar(s[0])] + Lower(s[1..])
  }

  /** Lower-casing twice is lower-casing once. */
  lemma LowerIdempotent(s: string)
    ensures Lower(Lower(s)) == Lower(s)
  {
    forall i | 0 <= i < |s| ensures Lower(Lower(s))[i] == Lower(s)[i] {
      assert LowerChar(LowerChar(s[i])) == LowerChar(s[i]);
    }
  }

  /** `a <= b` on Python strings: lexicographic by code point. */
  predicate StrLe(a: string, b: string) {
    if a == [] then true
    else if b == [] then false
    else if a[0] != b[0] then a[0] < b[0]
    else StrLe(a[1..], b[1..])
  }

  /** All characters of `s` that are not whitespace, in order. */
  function NonSpace(s: string): string {
    if s == [] then []
    else if IsSpace(s[0]) then NonSpace(s[1..])
    else [s[0]] + NonSpace(s[1..])
  }

  /** Concatenation of a sequence of strings. */
  function Concat(ws: seq<string>): string {
    if ws == [] then [] else ws[0] + Concat(ws[1..])
  }

  // ---------------------------------------------------------------------
  // Ordering of strings

  lemma {:induction false} StrLeTotal(a: string, b: string)
    ensures StrLe(a, b) || StrLe(b, a)
  {
    if a != [] && b != [] && a[0] == b[0] {
      StrLeTotal(a[1..], b[1..]);
    }
  }

  lemma {:induction false} StrLeTrans(a: string, b: string, c: string)
    requires StrLe(a, b) && StrLe(b, c)
    ensures StrLe(a, c)
  {
    if a != [] && b != [] && c != [] && a[0] == b[0] && b[0] == c[0] {
      StrLeTrans(a[1..], b[1..], c[1..]);
    }
  }

  lemma {:induction false} StrLeAntisym(a: string, b: string)
    requires StrLe(a, b) && StrLe(b, a)
    ensures a == b
  {
    if a != [] && b != [] {
      StrLeAntisym(a[1..], b[1..]);
      assert a == [a[0]] + a[1..] && b == [b[0]] + b[1..];
    }
  }

  lemma StrLeIsTotalPreorder()
    ensures forall a, b :: StrLe(a, b) || StrLe(b, a)
    ensures forall a, b, c :: StrLe(a, b) && StrLe(b, c) ==> StrLe(a, c)
  {
    forall a, b ensures StrLe(a, b) || StrLe(b, a) { StrLeTotal(a, b); }
    forall a, b, c | StrLe(a, b) && StrLe(b, c) ensures StrLe(a, c) { StrLeTrans(a, b, c); }
  }

  // ---------------------------------------------------------------------
  // Facts about split, join and strip

  lemma {:induction false} SplitGivesWords(s: string)
    ensures AllWords(Split(s))
    decreases |s|
  {
    if s == [] {
    } else if IsSpace(s[0]) {
      SplitGivesWords(s[1..]);
    } else {
      var n := LeadingRun(s);
      SplitGivesWords(s[n..]);
    }
  }

  lemma {:induction false} LeadingRunAfterWord(w: string, t: string)
    requires forall i :: 0 <= i < |w| ==> !IsSpace(w[i])
    requires t == [] || IsSpace(t[0])
    ensures LeadingRun(w + t) == |w|
  {
    if w != [] {
      assert (w + t)[1..] == w[1..] + t;
      LeadingRunAfterWord(w[1..], t);
    } else {
      assert w + t == t;
    }
  }

  /** Splitting a space-joined list of words gives the words back. */
  lemma {:induction false} SplitJoin(ws: seq<string>)
    requires AllWords(ws)
    ensures Split(Join(" ", ws)) == ws
  {
    if ws == [] {
    } else if |ws| == 1 {
      var w := ws[0];
      LeadingRunAfterWord(w, []);
      assert w + [] == w;
      assert w[|w|..] == [];
    } else {
      var w, rest := ws[0], ws[1..];
      assert AllWords(rest) by {
        forall k | 0 <= k < |rest| ensures IsWord(rest[k]) { assert rest[k] == ws[k + 1]; }
      }
      SplitJoin(rest);
      var j := Join(" ", ws);
      var t := " " + Join(" ", rest);
      assert j == w + t;
      LeadingRunAfterWord(w, t);
      assert j[..|w|] == w;
      assert j[|w|..] == t;
      assert t[1..] == Join(" ", rest);
    }
  }

  /**
   * A collapsed string: no whitespace at either end, every whitespace
   * character is a plain space, and no two whitespace characters are
   * adjacent.
   */
  predicate Collapsed(t: string) {
    && (t != [] ==> !IsSpace(t[0]) && !IsSpace(t[|t| - 1]))
    && (forall i :: 0 <= i < |t| && IsSpace(t[i]) ==> t[i] == ' ')
    && (forall i :: 0 <= i < |t| - 1 ==> !(IsSpace(t[i]) && IsSpace(t[i + 1])))
  }

  lemma {:induction false} JoinWordsCollapsed(ws: seq<string>)
    requires AllWords(ws)
    ensures Collapsed(Join(" ", ws))
  {
    if |ws| >= 2 {
      var w, rest := ws[0], ws[1..];
      assert AllWords(rest) by {
        forall k | 0 <= k < |rest| ensures IsWord(rest[k]) { assert rest[k] == ws[k + 1]; }
      }
      JoinWordsCollapsed(rest);
      var r := Join(" ", rest);
      var j := Join(" ", ws);
      assert j == w + " " + r;
      assert r != [] by { assert |rest| >= 1; JoinNonEmpty(rest); }
      forall i | 0 <= i < |j| && IsSpace(j[i]) ensures j[i] == ' ' {
        if i > |w| { assert j[i] == r[i - |w| - 1]; }
      }
      forall i | 0 <= i < |j| - 1 ensures !(IsSpace(j[i]) && IsSpace(j[i + 1])) {
        if i > |w| { assert j[i] == r[i - |w| - 1] && j[i + 1] == r[i - |w|]; }
        else if i == |w| { assert j[i + 1] == r[0]; }
      }
    }
  }

  lemma {:induction false} JoinNonEmpty(ws: seq<string>)
    requires AllWords(ws) && ws != []
    ensures Join(" ", ws) != [] && Join(" ", ws)[0] == ws[0][0]
  {
  }

  lemma {:induction false} LStripCollapsed(t: string)
    requires t == [] || !IsSpace(t[0])
    ensures LStrip(t) == t
  {
  }

  lemma {:induction false} StripCollapsed(t: string)
    requires Collapsed(t)
    ensures Strip(t) == t
  {
    LStripCollapsed(t);
  }

  /** A collapsed string is the space-join of its own words. */
  lemma {:induction false} CollapsedIsJoinOfSplit(t: string)
    requires Collapsed(t)
    ensures Join(" ", Split(t)) == t
    decreases |t|
  {
    if t != [] {
      var n := LeadingRun(t);
      if n == |t| {
        SplitWholeWord(t);
      } else {
        var u := CollapsedTail(t, n);
        CollapsedIsJoinOfSplit(u);
        JoinCons(" ", t[..n], Split(u));
        SpaceAt(t, n);
      }
    }
  }

  lemma SpaceAt(t: string, n: nat)
    requires n < |t| && t[n] == ' '
    ensures t == t[..n] + " " + t[n + 1..]
  {
    assert t == t[..n] + [t[n]] + t[n + 1..];
  }

  lemma {:induction false} SplitWholeWord(t: string)
    requires t != [] && LeadingRun(t) == |t|
    ensures Split(t) == [t]
  {
    assert t[..|t|] == t && t[|t|..] == [];
  }

  /** Past the first word of a collapsed string come one space and a shorter collapsed string. */
  lemma {:induction false} CollapsedTail(t: string, n: nat) returns (u: string)
    requires Collapsed(t) && t != [] && n == LeadingRun(t) && n < |t|
    ensures n + 1 < |t| && t[n] == ' ' && u == t[n + 1..]
    ensures Collapsed(u) && Split(u) != []
    ensures Split(t) == [t[..n]] + Split(u)
  {
    assert n + 1 < |t|;
    u := t[n + 1..];
    assert t[n..][1..] == u;
    forall i | 0 <= i < |u| && IsSpace(u[i]) ensures u[i] == ' ' { assert u[i] == t[n + 1 + i]; }
    forall i | 0 <= i < |u| - 1 ensures !(IsSpace(u[i]) && IsSpace(u[i + 1])) {
      assert u[i] == t[n + 1 + i] && u[i + 1] == t[n + 2 + i];
    }
    assert !IsSpace(u[0]);
  }

  lemma {:induction false} JoinCons(sep: string, w: string, rest: seq<string>)
    requires rest != []
    ensures Join(sep, [w] + rest) == w + sep + Join(sep, rest)
  {
    assert ([w] + rest)[1..] == rest;
  }

  lemma {:induction false} JoinSnoc(sep: string, parts: seq<string>, w: string)
    requires parts != []
    ensures Join(sep, parts + [w]) == Join(sep, parts) + sep + w
  {
    assert (parts + [w])[1..] == parts[1..] + [w];
    if |parts| > 1 {
      JoinSnoc(sep, parts[1..], w);
    }
  }

  lemma {:induction false} NonSpaceAppend(a: string, b: string)
    ensures NonSpace(a + b) == NonSpace(a) + NonSpace(b)
  {
    if a != [] {
      assert (a + b)[1..] == a[1..] + b;
      NonSpaceAppend(a[1..], b);
    } else {
      assert a + b == b;
    }
  }

  lemma {:induction false} NonSpaceOfRun(w: string)
    requires forall i :: 0 <= i < |w| ==> !IsSpace(w[i])
    ensures NonSpace(w) == w
  {
    if w != [] {
      NonSpaceOfRun(w[1..]);
      assert w == [w[0]] + w[1..];
    }
  }

  /** The words of `s`, concatenated, are exactly its non-whitespace characters. */
  lemma {:induction false} ConcatSplit(s: string)
    ensures Concat(Split(s)) == NonSpace(s)
    decreases |s|
  {
    if s != [] && !IsSpace(s[0]) {
      var n := LeadingRun(s);
      ConcatSplit(s[n..]);
      assert s == s[..n] + s[n..];
      NonSpaceAppend(s[..n], s[n..]);
      NonSpaceOfRun(s[..n]);
      assert ([s[..n]] + Split(s[n..]))[1..] == Split(s[n..]);
    } else if s != [] {
      ConcatSplit(s[1..]);
    }
  }

  lemma {:induction false} NonSpaceJoin(ws: seq<string>)
    requires AllWords(ws)
    ensures NonSpace(Join(" ", ws)) == Concat(ws)
  {
    if |ws| == 1 {
      NonSpaceOfRun(ws[0]);
      assert Concat(ws) == ws[0] + Concat([]);
    } else if |ws| >= 2 {
      var rest := ws[1..];
      assert AllWords(rest) by {
        forall k | 0 <= k < |rest| ensures IsWord(rest[k]) { assert rest[k] == ws[k + 1]; }
      }
      NonSpaceJoin(rest);
      NonSpaceOfRun(ws[0]);
      NonSpaceAppend(ws[0], " " + Join(" ", rest));
      NonSpaceAppend(" ", Join(" ", rest));
      assert ws[0] + " " + Join(" ", rest) == ws[0] + (" " + Join(" ", rest));
    }
  }
}
