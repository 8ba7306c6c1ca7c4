/**
 * The JavaScript string operations the pages use, on strings as sequences of
 * characters: the white-space class shared by `String.prototype.trim` and the
 * regular-expression escape `\s`, `trim`, `includes`, `slice(0, n)`,
 * `split` on one character, `join`, and the decimal rendering of a
 * non-negative integer inside a template literal.
 */
module Text {

  /**
   * The characters JavaScript counts as white space or line terminators
   * (the set `trim` removes and `\s` matches).
   */
  predicate IsWhitespace(c: char) {
    c == '\t' || c == '\n' || c == '\U{000B}' || c == '\U{000C}' || c == '\r' || c == ' ' ||
    c == '\U{00A0}' || c == '\U{1680}' || ('\U{2000}' <= c <= '\U{200A}') ||
    c == '\U{2028}' || c == '\U{2029}' || c == '\U{202F}' || c == '\U{205F}' ||
    c == '\U{3000}' || c == '\U{FEFF}'
  }

  /** `\d`: an ASCII decimal digit. */
  predicate IsDigit(c: char) {
    '0' <= c <= '9'
  }

  /** `[A-Z]`: an ASCII upper-case letter. */
  predicate IsUpper(c: char) {
    'A' <= c <= 'Z'
  }

  /** Every character of `s` is white space. */
  predicate AllWhitespace(s: string) {
    forall i :: 0 <= i < |s| ==> IsWhitespace(s[i])
  }

  /** The length of the white-space run at the start of `s`. */
  function LeadingWhitespace(s: string): (n: nat)
    ensures n <= |s|
    ensures AllWhitespace(s[..n])
    ensures n < |s| ==> !IsWhitespace(s[n])
  {
    if s == [] || !IsWhitespace(s[0]) then 0
    else
      var n := 1 + LeadingWhitespace(s[1..]);
      assert forall i :: 1 <= i < n ==> s[i] == s[1..][i - 1];
      n
  }

  /** The length of the white-space run at the end of `s`. */
  function TrailingWhitespace(s: string): (n: nat)
    ensures n <= |s|
    ensures AllWhitespace(s[|s| - n..])
    ensures n < |s| ==> !IsWhitespace(s[|s| - n - 1])
  {
    if s == [] || !IsWhitespace(s[|s| - 1]) then 0
    else
      var n := 1 + TrailingWhitespace(s[..|s| - 1]);
      assert forall i :: |s| - n <= i < |s| - 1 ==> s[i] == s[..|s| - 1][i];
      n
  }

  /**
   * `s.trim()`: `s` without its leading and trailing white space. The result is
   * a slice of `s` that neither starts nor ends with white space, and it is
   * empty exactly when `s` is all white space.
   */
  function Trim(s: string): (r: string)
    ensures r == [] <==> AllWhitespace(s)
    ensures r != [] ==> !IsWhitespace(r[0]) && !IsWhitespace(r[|r| - 1])
    ensures LeadingWhitespace(s) + |r| <= |s|
    ensures r == s[LeadingWhitespace(s)..LeadingWhitespace(s) + |r|]
    ensures AllWhitespace(s[LeadingWhitespace(s) + |r|..])
  {
    var a := LeadingWhitespace(s);
    if a == |s| then
      assert s[..a] == s;
      assert s[..0] == [] && s[0..0] == [] && s[0..] == s;
      []
    else
      var b := TrailingWhitespace(s);
      TrimCore(s, a, b);
      s[a..|s| - b]
  }

  /**
   * Between a first character that is not white space at `a` and a white-space
   * tail of length `b` lies a slice that neither starts nor ends with white space.
   */
  lemma TrimCore(s: string, a: nat, b: nat)
    requires a < |s| && !IsWhitespace(s[a])
    requires b <= |s| && AllWhitespace(s[|s| - b..])
    requires b < |s| ==> !IsWhitespace(s[|s| - b - 1])
    ensures a < |s| - b
    ensures var r := s[a..|s| - b];
      && !IsWhitespace(r[0]) && !IsWhitespace(r[|r| - 1])
      && s[a + |r|..] == s[|s| - b..]
  {
    assert forall i :: |s| - b <= i < |s| ==> s[i] == s[|s| - b..][i - (|s| - b)];
  }

  /** No character of `s` is white space. */
  predicate NoWhitespace(s: string) {
    forall i :: 0 <= i < |s| ==> !IsWhitespace(s[i])
  }

  /**
   * `s.replace(/\s+/g, [sep])`: every maximal run of white space becomes one
   * `sep`.
   */
  function ReplaceWhitespaceRuns(s: string, sep: char): (r: string)
    requires !IsWhitespace(sep)
    ensures NoWhitespace(r)
    ensures |r| <= |s|
    decreases |s|
  {
    if s == [] then []
    else if IsWhitespace(s[0]) then
      var n := LeadingWhitespace(s);
      [sep] + ReplaceWhitespaceRuns(s[n..], sep)
    else [s[0]] + ReplaceWhitespaceRuns(s[1..], sep)
  }

  /** A string without white space is left as it is. */
  lemma {:induction false} ReplaceWhitespaceRunsNone(s: string, sep: char)
    requires !IsWhitespace(sep) && NoWhitespace(s)
    ensures ReplaceWhitespaceRuns(s, sep) == s
  {
    if s != [] {
      ReplaceWhitespaceRunsNone(s[1..], sep);
    }
  }

  /** A white-space run of length `n` followed by something else is the leading run. */
  lemma {:induction false} LeadingWhitespaceIs(s: string, n: nat)
    requires n <= |s| && AllWhitespace(s[..n]) && (n < |s| ==> !IsWhitespace(s[n]))
    ensures LeadingWhitespace(s) == n
    decreases n
  {
    if n > 0 {
      assert IsWhitespace(s[..n][0]);
      assert s[1..][..n - 1] == s[..n][1..];
      LeadingWhitespaceIs(s[1..], n - 1);
    }
  }

  /** `s` ends in a character other than white space, or is empty. */
  predicate SolidEnd(s: string) {
    s == [] || !IsWhitespace(s[|s| - 1])
  }

  /** `s` starts with a character other than white space, or is empty. */
  predicate SolidStart(s: string) {
    s == [] || !IsWhitespace(s[0])
  }

  /** A leading white-space run of `s` becomes one `sep`. */
  lemma ReplaceLeadingRun(s: string, sep: char)
    requires !IsWhitespace(sep) && s != [] && IsWhitespace(s[0])
    ensures ReplaceWhitespaceRuns(s, sep) == [sep] + ReplaceWhitespaceRuns(s[LeadingWhitespace(s)..], sep)
  {
  }

  /** A leading character other than white space is kept. */
  lemma ReplaceLeadingSolid(s: string, sep: char)
    requires !IsWhitespace(sep) && s != [] && !IsWhitespace(s[0])
    ensures ReplaceWhitespaceRuns(s, sep) == [s[0]] + ReplaceWhitespaceRuns(s[1..], sep)
  {
  }

  /**
   * A maximal white-space run `w` between `a` and `b` becomes exactly one
   * `sep`, and the text on either side is replaced on its own.
   */
  lemma {:induction false} ReplaceRunBetween(a: string, w: string, b: string, sep: char)
    requires !IsWhitespace(sep)
    requires w != [] && AllWhitespace(w) && SolidEnd(a) && SolidStart(b)
    ensures ReplaceWhitespaceRuns(a + w + b, sep)
            == ReplaceWhitespaceRuns(a, sep) + [sep] + ReplaceWhitespaceRuns(b, sep)
    decreases |a|
  {
    var rb := ReplaceWhitespaceRuns(b, sep);
    if a == [] {
      RunThenSolid(a, w, b, sep);
    } else {
      var head, rest := LeadingStep(a, w, b, sep);
      ReplaceRunBetween(rest, w, b, sep);
      HeadThenJoin(ReplaceWhitespaceRuns(a + w + b, sep), head, ReplaceWhitespaceRuns(rest + w + b, sep),
                   ReplaceWhitespaceRuns(rest, sep), [sep], rb, ReplaceWhitespaceRuns(a, sep));
    }
  }

  /**
   * The first step of the replacement on `a + w + b`, where `a` has a solid end:
   * it reads the same `head` off `a` alone and leaves a shorter `rest` of `a`.
   */
  lemma LeadingStep(a: string, w: string, b: string, sep: char) returns (head: string, rest: string)
    requires !IsWhitespace(sep) && a != [] && SolidEnd(a)
    ensures |rest| < |a| && SolidEnd(rest)
    ensures ReplaceWhitespaceRuns(a + w + b, sep) == head + ReplaceWhitespaceRuns(rest + w + b, sep)
    ensures ReplaceWhitespaceRuns(a, sep) == head + ReplaceWhitespaceRuns(rest, sep)
  {
    var t := w + b;
    var s := a + w + b;
    assert s == a + t;
    if !IsWhitespace(a[0]) {
      head, rest := [a[0]], a[1..];
      assert s[0] == a[0] && s[1..] == rest + w + b;
      ReplaceLeadingSolid(s, sep);
      ReplaceLeadingSolid(a, sep);
    } else {
      var n := LeadingWhitespace(a);
      InnerRunOfSolidEnd(a, t);
      head, rest := [sep], a[n..];
      assert s[n..] == rest + w + b;
      ReplaceLeadingRun(s, sep);
      ReplaceLeadingRun(a, sep);
    }
    if rest != [] {
      assert rest[|rest| - 1] == a[|a| - 1];
    }
  }

  /** Regrouping: a head before `p + m + q`, where the head before `p` alone is `a`. */
  lemma HeadThenJoin<T>(x: seq<T>, head: seq<T>, y: seq<T>, p: seq<T>, m: seq<T>, q: seq<T>, a: seq<T>)
    requires x == head + y && y == p + m + q && a == head + p
    ensures x == a + m + q
  {
  }

  /** With nothing before it, the run becomes a leading `sep` before the rest replaced. */
  lemma RunThenSolid(a: string, w: string, b: string, sep: char)
    requires a == [] && !IsWhitespace(sep) && w != [] && AllWhitespace(w) && SolidStart(b)
    ensures ReplaceWhitespaceRuns(a + w + b, sep) == ReplaceWhitespaceRuns(a, sep) + [sep] + ReplaceWhitespaceRuns(b, sep)
  {
    var s := w + b;
    assert a + w + b == s;
    assert s[..|w|] == w && s[0] == w[0];
    LeadingWhitespaceIs(s, |w|);
    ReplaceLeadingRun(s, sep);
    assert s[|w|..] == b;
  }

  /** The leading run of a string with a solid end stops inside it, whatever follows. */
  lemma InnerRunOfSolidEnd(a: string, t: string)
    requires a != [] && SolidEnd(a)
    ensures LeadingWhitespace(a) < |a| && LeadingWhitespace(a + t) == LeadingWhitespace(a)
  {
    var n := LeadingWhitespace(a);
    var s := a + t;
    assert s[..n] == a[..n] && s[n] == a[n];
    LeadingWhitespaceIs(s, n);
  }

  /** Replacing the runs a second time changes nothing. */
  lemma ReplaceWhitespaceRunsIdempotent(s: string, sep: char)
    requires !IsWhitespace(sep)
    ensures ReplaceWhitespaceRuns(ReplaceWhitespaceRuns(s, sep), sep) == ReplaceWhitespaceRuns(s, sep)
  {
    ReplaceWhitespaceRunsNone(ReplaceWhitespaceRuns(s, sep), sep);
  }

  /** The characters of `s` other than white space and `sep`, in order. */
  function Solid(s: string, sep: char): string {
    if s == [] then []
    else (if IsWhitespace(s[0]) || s[0] == sep then [] else [s[0]]) + Solid(s[1..], sep)
  }

  /** Leading white space contributes nothing to `Solid`. */
  lemma {:induction false} SolidSkipsWhitespace(s: string, sep: char, n: nat)
    requires n <= |s| && AllWhitespace(s[..n])
    ensures Solid(s, sep) == Solid(s[n..], sep)
  {
    if n > 0 {
      assert IsWhitespace(s[..n][0]);
      assert s[1..][..n - 1] == s[..n][1..];
      SolidSkipsWhitespace(s[1..], sep, n - 1);
      assert s[1..][n - 1..] == s[n..];
    }
  }

  /** Replacing white-space runs keeps every other character, in order. */
  lemma {:induction false} ReplaceWhitespaceRunsKeepsText(s: string, sep: char)
    requires !IsWhitespace(sep)
    ensures Solid(ReplaceWhitespaceRuns(s, sep), sep) == Solid(s, sep)
    decreases |s|
  {
    if s != [] {
      var r := ReplaceWhitespaceRuns(s, sep);
      if IsWhitespace(s[0]) {
        var n := LeadingWhitespace(s);
        ReplaceWhitespaceRunsKeepsText(s[n..], sep);
        SolidSkipsWhitespace(s, sep, n);
        assert r[1..] == ReplaceWhitespaceRuns(s[n..], sep);
      } else {
        ReplaceWhitespaceRunsKeepsText(s[1..], sep);
        assert r[1..] == ReplaceWhitespaceRuns(s[1..], sep);
      }
    }
  }

  /** `sub` occurs in `s` starting at index `i`. */
  predicate OccursAt(s: string, sub: string, i: int) {
    0 <= i <= |s| - |sub| && s[i..i + |sub|] == sub
  }

  /** An occurrence past the first character is an occurrence in the tail. */
  lemma OccursShift(s: string, sub: string, i: int)
    requires 0 < i && s != []
    ensures OccursAt(s, sub, i) <==> OccursAt(s[1..], sub, i - 1)
  {
    if 0 < i <= |s| - |sub| {
      assert s[i..i + |sub|] == s[1..][i - 1..i - 1 + |sub|];
    }
  }

  /** `s.includes(sub)`: `sub` occurs somewhere in `s`. */
  function Contains(s: string, sub: string): (b: bool)
    ensures b <==> exists i :: OccursAt(s, sub, i)
    decreases |s|
  {
    if |sub| > |s| then false
    else if sub <= s then
      assert OccursAt(s, sub, 0);
      true
    else
      var b := Contains(s[1..], sub);
      assert b ==> exists i :: OccursAt(s, sub, i) by {
        if b {
          var j :| OccursAt(s[1..], sub, j);
          OccursShift(s, sub, j + 1);
        }
      }
      assert (exists i :: OccursAt(s, sub, i)) ==> b by {
        if exists i :: OccursAt(s, sub, i) {
          var i :| OccursAt(s, sub, i);
          assert i != 0;
          OccursShift(s, sub, i);
        }
      }
      b
  }

  /**
   * `s.slice(0, n)` for `n >= 0`: the first `n` characters of `s`, or all of
   * `s` when it is shorter.
   */
  function Take(s: string, n: nat): (r: string)
    ensures |r| == if |s| < n then |s| else n
    ensures r <= s
  {
    if |s| <= n then s else s[..n]
  }

  /** The index of the first `c` in `s`, or `|s|` when there is none. */
  function IndexOf(s: string, c: char): (i: nat)
    ensures i <= |s|
    ensures i < |s| ==> s[i] == c
    ensures c !in s[..i]
  {
    if s == [] then 0
    else if s[0] == c then 0
    else
      var i := 1 + IndexOf(s[1..], c);
      assert s[..i] == [s[0]] + s[1..][..i - 1];
      i
  }

  /**
   * `s.split(c)` for a one-character separator: the pieces between the
   * occurrences of `c`, always at least one (`"".split(c)` is `[""]`).
   */
  function SplitOn(s: string, c: char): (parts: seq<string>)
    ensures |parts| >= 1
    ensures forall k :: 0 <= k < |parts| ==> c !in parts[k]
    decreases |s|
  {
    var i := IndexOf(s, c);
    if i == |s| then
      assert s[..i] == s;
      [s]
    else [s[..i]] + SplitOn(s[i + 1..], c)
  }

  /** `parts.join(sep)`. */
  function JoinWith(parts: seq<string>, sep: string): string
  {
    if parts == [] then ""
    else if |parts| == 1 then parts[0]
    else parts[0] + sep + JoinWith(parts[1..], sep)
  }

  /** Joining a head onto a non-empty rest puts one separator between them. */
  lemma JoinCons(head: string, tail: seq<string>, sep: string)
    requires tail != []
    ensures JoinWith([head] + tail, sep) == head + sep + JoinWith(tail, sep)
  {
    assert ([head] + tail)[1..] == tail;
  }

  /** Joining one more part onto non-empty parts adds one separator and that part at the end. */
  lemma {:induction false} JoinSnoc(parts: seq<string>, last: string, sep: string)
    requires parts != []
    ensures JoinWith(parts + [last], sep) == JoinWith(parts, sep) + sep + last
    decreases |parts|
  {
    var all := parts + [last];
    if |parts| == 1 {
      assert all == [parts[0]] + [last];
      JoinCons(parts[0], [last], sep);
    } else {
      assert all == [parts[0]] + (parts[1..] + [last]);
      JoinCons(parts[0], parts[1..] + [last], sep);
      JoinSnoc(parts[1..], last, sep);
      assert parts == [parts[0]] + parts[1..];
      JoinCons(parts[0], parts[1..], sep);
    }
  }

  /** A split that finds the separator at `i` continues after it. */
  lemma SplitOnStep(s: string, c: char)
    requires IndexOf(s, c) < |s|
    ensures SplitOn(s, c) == [s[..IndexOf(s, c)]] + SplitOn(s[IndexOf(s, c) + 1..], c)
  {
  }

  /** A string without the separator splits into itself alone. */
  lemma JoinSplitNone(s: string, c: char)
    requires IndexOf(s, c) == |s|
    ensures JoinWith(SplitOn(s, c), [c]) == s
  {
    assert SplitOn(s, c) == [s] by {
      assert s[..|s|] == s;
    }
  }

  /** A string is its prefix, the character at `i`, and the suffix after it. */
  lemma Reassemble(s: string, i: nat)
    requires i < |s|
    ensures s == s[..i] + [s[i]] + s[i + 1..]
  {
  }

  /** If the rest after the first separator joins back, so does the whole string. */
  lemma JoinSplitStep(s: string, c: char)
    requires IndexOf(s, c) < |s|
    requires JoinWith(SplitOn(s[IndexOf(s, c) + 1..], c), [c]) == s[IndexOf(s, c) + 1..]
    ensures JoinWith(SplitOn(s, c), [c]) == s
  {
    var i := IndexOf(s, c);
    var rest := s[i + 1..];
    var tail := SplitOn(rest, c);
    calc {
      JoinWith(SplitOn(s, c), [c]);
    == { SplitOnStep(s, c); }
      JoinWith([s[..i]] + tail, [c]);
    == { JoinCons(s[..i], tail, [c]); }
      s[..i] + [c] + rest;
    == { Reassemble(s, i); }
      s;
    }
  }

  /** Joining the pieces of a split with the separator gives back the string. */
  lemma {:induction false} JoinSplit(s: string, c: char)
    ensures JoinWith(SplitOn(s, c), [c]) == s
    decreases |s|
  {
    var i := IndexOf(s, c);
    if i == |s| {
      JoinSplitNone(s, c);
    } else {
      JoinSplit(s[i + 1..], c);
      JoinSplitStep(s, c);
    }
  }

  /** Every piece that is joined occurs, whole, in the joined string. */
  lemma {:induction false} JoinKeepsParts(parts: seq<string>, sep: string, k: nat)
    requires k < |parts|
    ensures exists i :: OccursAt(JoinWith(parts, sep), parts[k], i)
  {
    var j := JoinWith(parts, sep);
    if |parts| == 1 {
      assert OccursAt(j, parts[k], 0);
    } else if k == 0 {
      assert j == parts[0] + (sep + JoinWith(parts[1..], sep));
      assert OccursAt(j, parts[0], 0);
    } else {
      var tail := JoinWith(parts[1..], sep);
      JoinKeepsParts(parts[1..], sep, k - 1);
      var i :| OccursAt(tail, parts[k], i);
      var off := |parts[0]| + |sep|;
      assert j == (parts[0] + sep) + tail;
      assert j[off + i..off + i + |parts[k]|] == tail[i..i + |parts[k]|];
      assert OccursAt(j, parts[k], off + i);
    }
  }

  /** The character for a decimal digit value. */
  function DigitChar(d: nat): (c: char)
    requires d < 10
    ensures IsDigit(c)
  {
    ('0' as int + d) as char
  }

  /** The value of a decimal digit character. */
  function DigitValue(c: char): (d: nat)
    requires IsDigit(c)
    ensures d < 10
  {
    (c as int - '0' as int) as nat
  }

  /** `${n}` for a non-negative integer: its decimal digits, without leading zeros. */
  function NatToString(n: nat): (r: string)
    ensures r != []
    ensures forall i :: 0 <= i < |r| ==> IsDigit(r[i])
    ensures r[0] == '0' ==> n == 0
  {
    if n < 10 then [DigitChar(n)]
    else NatToString(n / 10) + [DigitChar(n % 10)]
  }

  /** The length of the run of decimal digits at the start of `s`. */
  function LeadingDigits(s: string): (n: nat)
    ensures n <= |s|
    ensures forall i :: 0 <= i < n ==> IsDigit(s[i])
    ensures n < |s| ==> !IsDigit(s[n])
  {
    if s == [] || !IsDigit(s[0]) then 0
    else
      var n := 1 + LeadingDigits(s[1..]);
      assert forall i :: 1 <= i < n ==> s[i] == s[1..][i - 1];
      n
  }

  /** The number a string of decimal digits denotes. */
  function DigitsValue(s: string): nat
    requires forall i :: 0 <= i < |s| ==> IsDigit(s[i])
  {
    if s == [] then 0
    else 10 * DigitsValue(s[..|s| - 1]) + DigitValue(s[|s| - 1])
  }

  /** Reading back the decimal rendering of `n` gives `n`. */
  lemma {:induction false} NatToStringRoundTrip(n: nat)
    ensures DigitsValue(NatToString(n)) == n
  {
    var r := NatToString(n);
    if n < 10 {
      assert DigitValue(DigitChar(n)) == n;
    } else {
      NatToStringRoundTrip(n / 10);
      assert r[..|r| - 1] == NatToString(n / 10);
      assert DigitValue(DigitChar(n % 10)) == n % 10;
    }
  }
}
