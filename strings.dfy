/**
 * The few Python string primitives the browser relies on, restricted to ASCII:
 * str.isspace, str.isalnum, str.casefold, str.replace, str.strip, str.split(),
 * str(int) and int(str).
 */
module Strings {
  import opened Wrappers

  /** ASCII part of str.isspace: \t \n \v \f \r, the separators 0x1c-0x1f and space. */
  predicate IsSpace(c: char) {
    c == ' ' || '\t' <= c <= '\r' || '\U{1C}' <= c <= '\U{1F}'
  }

  predicate IsDigit(c: char) { '0' <= c <= '9' }

  /** ASCII part of str.isalnum. */
  predicate IsAlnum(c: char) { IsDigit(c) || 'a' <= c <= 'z' || 'A' <= c <= 'Z' }

  predicate AllSpace(s: string) { forall k :: 0 <= k < |s| ==> IsSpace(s[k]) }

  predicate NoSpace(s: string) { forall k :: 0 <= k < |s| ==> !IsSpace(s[k]) }

  predicate StartsWith(s: string, prefix: string) { |prefix| <= |s| && s[..|prefix|] == prefix }

  predicate EndsWith(s: string, suffix: string) { |suffix| <= |s| && s[|s| - |suffix|..] == suffix }

  predicate OccursAt(s: string, pat: string, k: nat) { k + |pat| <= |s| && s[k..k + |pat|] == pat }

  /** `pat in s` */
  predicate Contains(s: string, pat: string) { exists k: nat | k <= |s| :: OccursAt(s, pat, k) }

  function LowerChar(c: char): char {
    if 'A' <= c <= 'Z' then (c as int + 32) as char else c
  }

  /** str.casefold on ASCII text: every upper-case letter becomes lower case. */
  function Lower(s: string): (r: string)
    ensures |r| == |s|
    ensures forall k :: 0 <= k < |s| ==> r[k] == LowerChar(s[k])
    ensures forall k :: 0 <= k < |r| ==> !('A' <= r[k] <= 'Z')
  {
    seq(|s|, k requires 0 <= k < |s| => LowerChar(s[k]))
  }

  lemma LowerIdempotent(s: string)
    ensures Lower(Lower(s)) == Lower(s)
  {
  }

  /** s.replace(c, "") for a single character c. */
  function RemoveChar(s: string, c: char): (r: string)
    ensures c !in r
    ensures forall x :: x in r <==> x in s && x != c
    ensures |r| <= |s|
  {
    if s == [] then []
    else if s[0] == c then RemoveChar(s[1..], c)
    else assert s == [s[0]] + s[1..]; [s[0]] + RemoveChar(s[1..], c)
  }

  /** Removal works piecewise, so the characters that stay keep their order. */
  lemma {:induction false} RemoveCharAppend(a: string, b: string, c: char)
    ensures RemoveChar(a + b, c) == RemoveChar(a, c) + RemoveChar(b, c)
  {
    if a == [] {
      assert a + b == b;
    } else {
      assert (a + b)[0] == a[0] && (a + b)[1..] == a[1..] + b;
      RemoveCharAppend(a[1..], b, c);
    }
  }

  /** Text without the character is left exactly as it is. */
  lemma {:induction false} RemoveCharAbsent(s: string, c: char)
    requires c !in s
    ensures RemoveChar(s, c) == s
  {
    if s != [] {
      assert s[0] in s && forall x :: x in s[1..] ==> x in s;
      RemoveCharAbsent(s[1..], c);
      assert s == [s[0]] + s[1..];
    }
  }

  /** The number of whitespace characters s starts with. */
  function LeadingSpaces(s: string): (n: nat)
    ensures n <= |s| && (forall k :: 0 <= k < n ==> IsSpace(s[k]))
    ensures n == |s| || !IsSpace(s[n])
  {
    if s == [] || !IsSpace(s[0]) then 0
    else
      var n := LeadingSpaces(s[1..]);
      assert forall k :: 1 <= k < n + 1 ==> s[k] == s[1..][k - 1];
      n + 1
  }

  /** Where the whitespace s ends with starts. */
  function TrailingStart(s: string): (n: nat)
    ensures n <= |s| && (forall k :: n <= k < |s| ==> IsSpace(s[k]))
    ensures n == 0 || !IsSpace(s[n - 1])
  {
    if s == [] || !IsSpace(s[|s| - 1]) then |s|
    else
      var n := TrailingStart(s[..|s| - 1]);
      assert forall k :: n <= k < |s| - 1 ==> s[k] == s[..|s| - 1][k];
      n
  }

  /** s.lstrip(): the suffix of s that starts at its first non-space character. */
  function TrimStart(s: string): (r: string)
    ensures |r| <= |s| && r == s[|s| - |r|..]
    ensures AllSpace(s[..|s| - |r|])
    ensures r == [] || !IsSpace(r[0])
  {
    var n := LeadingSpaces(s);
    assert forall k :: 0 <= k < n ==> s[..n][k] == s[k];
    s[n..]
  }

  /** s.rstrip(): the prefix of s that ends at its last non-space character. */
  function TrimEnd(s: string): (r: string)
    ensures |r| <= |s| && r == s[..|r|]
    ensures AllSpace(s[|r|..])
    ensures r == [] || !IsSpace(r[|r| - 1])
  {
    var n := TrailingStart(s);
    assert forall k :: 0 <= k < |s| - n ==> s[n..][k] == s[n + k];
    s[..n]
  }

  /** s.strip(): s without its leading and trailing whitespace. */
  function Strip(s: string): (r: string)
    ensures r == [] || (!IsSpace(r[0]) && !IsSpace(r[|r| - 1]))
    ensures r == [] <==> AllSpace(s)
    ensures forall x :: x in r ==> x in s
    ensures var a := LeadingSpaces(s);
      && a + |r| <= |s| && r == s[a..a + |r|]
      && AllSpace(s[..a]) && AllSpace(s[a + |r|..])
  {
    var t := TrimStart(s);
    var r := TrimEnd(t);
    assert |s| - |t| == LeadingSpaces(s);
    StripFacts(s, |s| - |t|, t, r);
    r
  }

  lemma StripFacts(s: string, a: nat, t: string, r: string)
    requires a <= |s| && t == s[a..] && AllSpace(s[..a]) && (t == [] || !IsSpace(t[0]))
    requires |r| <= |t| && r == t[..|r|] && AllSpace(t[|r|..]) && (r == [] || !IsSpace(r[|r| - 1]))
    ensures r == [] <==> AllSpace(s)
    ensures forall x :: x in r ==> x in s
    ensures a + |r| <= |s| && r == s[a..a + |r|] && AllSpace(s[a + |r|..])
    ensures r == [] || (!IsSpace(r[0]) && !IsSpace(r[|r| - 1]))
  {
    assert s[a + |r|..] == t[|r|..];
    assert s[a..a + |r|] == t[..|r|];
    SliceChars(s, a, |s|);
    SliceChars(t, 0, |r|);
    if r == [] {
      assert t[0..] == t;
      assert t == [];
      assert s[..a] == s;
    } else {
      assert r[|r| - 1] == t[|r| - 1] == s[a + |r| - 1];
      assert r[0] == t[0];
    }
  }

  lemma SliceChars(s: string, a: nat, b: nat)
    requires a <= b <= |s|
    ensures forall x :: x in s[a..b] ==> x in s
  {
    forall x | x in s[a..b] ensures x in s {
      var k :| 0 <= k < b - a && s[a..b][k] == x;
      assert s[a + k] == x;
    }
  }

  /** The longest prefix of s without whitespace. */
  function WordPrefix(s: string): (r: string)
    ensures |r| <= |s| && r == s[..|r|] && NoSpace(r)
    ensures |r| < |s| ==> IsSpace(s[|r|])
    ensures s != [] && !IsSpace(s[0]) ==> r != []
  {
    if s == [] || IsSpace(s[0]) then []
    else
      var r := WordPrefix(s[1..]);
      [s[0]] + r
  }

  /** The concatenation of a sequence of strings. */
  function Concat(ws: seq<string>): string {
    if ws == [] then [] else ws[0] + Concat(ws[1..])
  }

  lemma {:induction false} ConcatAppend(a: seq<string>, b: seq<string>)
    ensures Concat(a + b) == Concat(a) + Concat(b)
  {
    if a == [] {
      assert a + b == b;
    } else {
      assert (a + b)[1..] == a[1..] + b;
      ConcatAppend(a[1..], b);
    }
  }

  /** The characters of s that are not whitespace, in order. */
  function NonSpace(s: string): string {
    if s == [] then [] else (if IsSpace(s[0]) then [] else [s[0]]) + NonSpace(s[1..])
  }

  lemma {:induction false} NonSpaceAppend(a: string, b: string)
    ensures NonSpace(a + b) == NonSpace(a) + NonSpace(b)
  {
    if a == [] {
      assert a + b == b;
    } else {
      assert (a + b)[1..] == a[1..] + b;
      NonSpaceAppend(a[1..], b);
    }
  }

  lemma {:induction false} NonSpaceOfAllSpace(s: string)
    requires AllSpace(s)
    ensures NonSpace(s) == []
  {
    if s != [] { NonSpaceOfAllSpace(s[1..]); }
  }

  lemma {:induction false} NonSpaceOfNoSpace(s: string)
    requires NoSpace(s)
    ensures NonSpace(s) == s
  {
    if s != [] { NonSpaceOfNoSpace(s[1..]); }
  }

  /**
   * s.split() with no argument: the maximal runs of non-whitespace characters.
   * Every word is non-empty and space-free, and together they hold exactly the
   * non-space characters of s, in order.
   */
  function SplitWords(s: string): (r: seq<string>)
    ensures AllWords(r)
    ensures Concat(r) == NonSpace(s)
    decreases |s|
  {
    var t := TrimStart(s);
    if t == [] then
      NonSpaceOfAllSpace(s[..|s|]);
      assert s[..|s|] == s;
      []
    else
      var w := WordPrefix(t);
      var rest := t[|w|..];
      SplitStep(s, |s| - |t|, t, w, rest);
      var tail := SplitWords(rest);
      ConsConcat(w, tail);
      ConsWords(w, tail);
      [w] + tail
  }

  /** Slicing a suffix t of a, with b appended. */
  lemma SuffixSlices(a: string, t: string, n: nat, b: string)
    requires |t| <= |a| && t == a[|a| - |t|..] && n <= |t| && t != []
    ensures (t + b)[n..] == t[n..] + b
    ensures t[|t| - 1] == a[|a| - 1]
    ensures n < |t| ==> t[n..][|t| - n - 1] == a[|a| - 1]
    ensures t[n..] == [] ==> t[n..] + b == b
  {
  }

  lemma SeqAssoc(a: seq<string>, b: seq<string>, c: seq<string>)
    ensures (a + b) + c == a + (b + c)
  {
  }

  /** Every entry is a non-empty run of non-space characters. */
  predicate AllWords(ws: seq<string>) {
    forall k :: 0 <= k < |ws| ==> ws[k] != [] && NoSpace(ws[k])
  }

  lemma ConsWords(w: string, tail: seq<string>)
    requires w != [] && NoSpace(w) && AllWords(tail)
    ensures AllWords([w] + tail)
  {
  }

  lemma ConsConcat(w: string, tail: seq<string>)
    ensures Concat([w] + tail) == w + Concat(tail)
  {
    assert ([w] + tail)[1..] == tail;
  }

  lemma SplitStep(s: string, a: nat, t: string, w: string, rest: string)
    requires a <= |s| && t == s[a..] && AllSpace(s[..a])
    requires |w| <= |t| && w == t[..|w|] && NoSpace(w) && w != [] && rest == t[|w|..]
    ensures |rest| < |s|
    ensures NonSpace(s) == w + NonSpace(rest)
  {
    assert s == s[..a] + (w + rest);
    NonSpaceAppend(s[..a], w + rest);
    NonSpaceAppend(w, rest);
    NonSpaceOfAllSpace(s[..a]);
    NonSpaceOfNoSpace(w);
  }

  /** LeadingSpaces is the one position that ends a run of spaces at a non-space character or the end. */
  lemma LeadingSpacesIs(s: string, n: nat)
    requires n <= |s| && (forall k :: 0 <= k < n ==> IsSpace(s[k]))
    requires n == |s| || !IsSpace(s[n])
    ensures LeadingSpaces(s) == n
  {
  }

  lemma TrimStartAppend(a: string, b: string)
    requires !AllSpace(a)
    ensures TrimStart(a + b) == TrimStart(a) + b
  {
    var n := LeadingSpaces(a);
    assert n < |a|;
    assert forall k :: 0 <= k <= n ==> (a + b)[k] == a[k];
    LeadingSpacesIs(a + b, n);
    assert (a + b)[n..] == a[n..] + b;
  }

  lemma TrimStartSkip(a: string, b: string)
    requires AllSpace(a)
    ensures TrimStart(a + b) == TrimStart(b)
  {
    var n := LeadingSpaces(b);
    assert forall k :: |a| <= k < |a| + |b| ==> (a + b)[k] == b[k - |a|];
    LeadingSpacesIs(a + b, |a| + n);
    assert (a + b)[|a| + n..] == b[n..];
  }

  /** A word ended by a space, or by the end of its text, is not lengthened by what follows. */
  lemma {:induction false} WordPrefixAppend(t: string, b: string)
    requires |WordPrefix(t)| < |t| || b == [] || IsSpace(b[0])
    ensures WordPrefix(t + b) == WordPrefix(t)
  {
    if t == [] {
      assert t + b == b;
    } else if !IsSpace(t[0]) {
      assert (t + b)[0] == t[0] && (t + b)[1..] == t[1..] + b;
      WordPrefixAppend(t[1..], b);
    }
  }

  /** One step of split(): the first word, then the words of what follows it. */
  lemma SplitWordsUnfold(s: string)
    ensures var t := TrimStart(s);
      SplitWords(s) == if t == [] then [] else [WordPrefix(t)] + SplitWords(t[|WordPrefix(t)|..])
  {
  }

  /** A single word splits to itself. */
  lemma SplitWordsOfWord(w: string)
    requires w != [] && NoSpace(w)
    ensures SplitWords(w) == [w]
  {
    LeadingSpacesIs(w, 0);
    assert TrimStart(w) == w;
    assert WordPrefix(w) == w;
    SplitWordsUnfold(w);
    SplitWordsUnfold(w[|w|..]);
  }

  /** Leading whitespace adds no word. */
  lemma SplitWordsAfterSpace(a: string, b: string)
    requires AllSpace(a)
    ensures SplitWords(a + b) == SplitWords(a) + SplitWords(b)
  {
    TrimStartSkip(a, b);
    SplitWordsOfAllSpace(a);
    SplitWordsSameTrim(a + b, b);
    assert SplitWords(a) + SplitWords(b) == SplitWords(b);
  }

  /** The first word of a text that is not blank, then the words of the rest. */
  lemma SplitWordsFirst(x: string, w: string, rest: string)
    requires TrimStart(x) != [] && w == WordPrefix(TrimStart(x)) && rest == TrimStart(x)[|w|..]
    ensures SplitWords(x) == [w] + SplitWords(rest)
  {
    SplitWordsUnfold(x);
  }

  /** split() looks only at the text after the leading whitespace. */
  lemma SplitWordsSameTrim(x: string, y: string)
    requires TrimStart(x) == TrimStart(y)
    ensures SplitWords(x) == SplitWords(y)
  {
    SplitWordsUnfold(x);
    SplitWordsUnfold(y);
  }

  /**
   * split() works piecewise across a word boundary: the words of a + b are
   * those of a followed by those of b when a space separates them.
   * With SplitWordsOfWord and SplitWordsOfAllSpace this determines split()
   * on every text.
   */
  lemma {:induction false} SplitWordsAppend(a: string, b: string)
    requires a == [] || b == [] || IsSpace(a[|a| - 1]) || IsSpace(b[0])
    ensures SplitWords(a + b) == SplitWords(a) + SplitWords(b)
    decreases |a|
  {
    if AllSpace(a) {
      SplitWordsAfterSpace(a, b);
    } else {
      var t := TrimStart(a);
      TrimStartAppend(a, b);
      var w := WordPrefix(t);
      var rest := t[|w|..];
      SuffixSlices(a, t, |w|, b);
      if |w| == |t| {
        assert w == t[..|t|] == t;
        assert !IsSpace(w[|w| - 1]);
      }
      WordPrefixAppend(t, b);
      SplitWordsAppend(rest, b);
      SplitWordsFirst(a + b, w, rest + b);
      SplitWordsFirst(a, w, rest);
      SeqAssoc([w], SplitWords(rest), SplitWords(b));
    }
  }

  lemma SplitWordsOfAllSpace(s: string)
    requires AllSpace(s)
    ensures SplitWords(s) == []
  {
  }

  function DigitChar(d: nat): char
    requires d < 10
  {
    ('0' as int + d) as char
  }

  function DigitValue(c: char): nat
    requires IsDigit(c)
  {
    c as int - '0' as int
  }

  /** str(n) for a non-negative integer: its decimal digits, most significant first. */
  function NatToString(n: nat): (r: string)
    ensures r != [] && forall k :: 0 <= k < |r| ==> IsDigit(r[k])
  {
    if n < 10 then [DigitChar(n)] else NatToString(n / 10) + [DigitChar(n % 10)]
  }

  function DigitsValue(s: string): nat
    requires forall k :: 0 <= k < |s| ==> IsDigit(s[k])
  {
    if s == [] then 0 else 10 * DigitsValue(s[..|s| - 1]) + DigitValue(s[|s| - 1])
  }

  /** int(s) on plain decimal text: None (Python's ValueError) unless s is a non-empty run of digits. */
  function ParseNat(s: string): (r: Option<nat>)
    ensures r.Some? <==> s != [] && forall k :: 0 <= k < |s| ==> IsDigit(s[k])
  {
    if s != [] && forall k :: 0 <= k < |s| ==> IsDigit(s[k]) then Some(DigitsValue(s)) else None
  }

  lemma {:induction false} ParseNatToString(n: nat)
    ensures ParseNat(NatToString(n)) == Some(n)
  {
    var s := NatToString(n);
    if n < 10 {
      assert s == [DigitChar(n)];
      assert DigitsValue(s) == 10 * DigitsValue([]) + DigitValue(s[0]);
    } else {
      ParseNatToString(n / 10);
      assert s[..|s| - 1] == NatToString(n / 10);
      assert DigitsValue(s) == 10 * DigitsValue(NatToString(n / 10)) + n % 10;
    }
  }
}
