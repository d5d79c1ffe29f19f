/**
 * CSSParser from css_parser.py: a recursive-descent scanner over a cursor `i`
 * into the declaration text `s`, with best-effort recovery in `body`, and the
 * `style` pass that copies each element's inline `style` declarations into the
 * node.
 *
 * The pure functions below give the cursor each scanner leaves behind; the
 * class methods are proved to move the cursor exactly as they say. A raised
 * "Parsing error" is a None result.
 */
module CssParser {
  import opened Wrappers
  import opened Strings
  import opened Dom

  /** The characters `word` accepts: alphanumerics and `#-.%`. */
  predicate IsWordChar(c: char) {
    IsAlnum(c) || c == '#' || c == '-' || c == '.' || c == '%'
  }

  /** Where `whitespace` stops: the end of the run of spaces starting at i. */
  function WhitespaceEnd(s: string, i: nat): (r: nat)
    requires i <= |s|
    ensures i <= r <= |s|
    ensures forall k :: i <= k < r ==> IsSpace(s[k])
    ensures r == |s| || !IsSpace(s[r])
    decreases |s| - i
  {
    if i < |s| && IsSpace(s[i]) then WhitespaceEnd(s, i + 1) else i
  }

  /** Where `word` stops: the end of the run of word characters starting at i. */
  function WordEnd(s: string, i: nat): (r: nat)
    requires i <= |s|
    ensures i <= r <= |s|
    ensures forall k :: i <= k < r ==> IsWordChar(s[k])
    ensures r == |s| || !IsWordChar(s[r])
    decreases |s| - i
  {
    if i < |s| && IsWordChar(s[i]) then WordEnd(s, i + 1) else i
  }

  /** Where `ignore_until` stops: the first position at or after i holding one of `chars`, else |s|. */
  function IgnoreUntilEnd(s: string, i: nat, chars: set<char>): (r: nat)
    requires i <= |s|
    ensures i <= r <= |s|
    ensures forall k :: i <= k < r ==> s[k] !in chars
    ensures r < |s| ==> s[r] in chars
    decreases |s| - i
  {
    if i < |s| && s[i] !in chars then IgnoreUntilEnd(s, i + 1, chars) else i
  }

  /** A non-empty run of word characters. */
  predicate IsWord(w: string) {
    w != [] && forall k :: 0 <= k < |w| ==> IsWordChar(w[k])
  }

  /** No upper-case ASCII letter: what casefold leaves. */
  predicate IsFolded(p: string) {
    forall k :: 0 <= k < |p| ==> !('A' <= p[k] <= 'Z')
  }

  lemma FoldedIsLower(p: string)
    requires IsFolded(p)
    ensures Lower(p) == p
  {
  }

  /** Every stored property is case-folded and every value is a word. */
  predicate WellFormed(pairs: map<string, string>) {
    forall p :: p in pairs ==> IsFolded(p) && IsWord(pairs[p])
  }

  lemma StoreWellFormed(pairs: map<string, string>, prop: string, val: string)
    ensures WellFormed(pairs) && IsWord(val) ==> WellFormed(pairs[Lower(prop) := val])
  {
  }

  /** The outcome of a scanner that may raise: its value (None when it raised) and the cursor it leaves. */
  datatype Scan<T> = Scan(value: Option<T>, cursor: nat)

  /** `word`: the maximal word at i, or a failure that leaves the cursor at i. */
  function WordAt(s: string, i: nat): (r: Scan<string>)
    requires i <= |s|
    ensures r.value.Some? <==> i < |s| && IsWordChar(s[i])
    ensures r.value.Some? ==> r.cursor == WordEnd(s, i) && r.value.value == s[i..r.cursor]
    ensures r.value.None? ==> r.cursor == i
  {
    var j := WordEnd(s, i);
    if j > i then Scan(Some(s[i..j]), j) else Scan(None, i)
  }

  /**
   * `pair`: word, whitespace, `:`, whitespace, word. The property is
   * case-folded and the value kept as written. On failure the cursor stays
   * where the failing step left it.
   */
  function PairAt(s: string, i: nat): (r: Scan<(string, string)>)
    requires i <= |s|
    ensures i <= r.cursor <= |s|
    ensures r.value.Some? ==> r.cursor > i
    ensures r.value.Some? ==> IsFolded(r.value.value.0) && IsWord(r.value.value.1)
  {
    var prop := WordAt(s, i);
    if prop.value.None? then Scan(None, prop.cursor)
    else
      var j := WhitespaceEnd(s, prop.cursor);
      if !(j < |s| && s[j] == ':') then Scan(None, j)
      else
        var k := WhitespaceEnd(s, j + 1);
        var val := WordAt(s, k);
        if val.value.None? then Scan(None, k)
        else
          Scan(Some((Lower(prop.value.value), val.value.value)), val.cursor)
  }

  /**
   * `pair` succeeds exactly when a word is followed, past optional spaces, by
   * `:` and, past optional spaces again, by another word.
   */
  lemma PairAtSucceeds(s: string, i: nat)
    requires i <= |s|
    ensures var p := WordEnd(s, i); var c := WhitespaceEnd(s, p);
      PairAt(s, i).value.Some? <==> p > i && c < |s| && s[c] == ':' && WordEnd(s, WhitespaceEnd(s, c + 1)) > WhitespaceEnd(s, c + 1)
  {
    var p := WordEnd(s, i);
    if p == i {
      assert PairAt(s, i).value.None?;
    } else {
      var c := WhitespaceEnd(s, p);
      if !(c < |s| && s[c] == ':') {
        assert PairAt(s, i) == Scan(None, c);
      } else {
        var v := WhitespaceEnd(s, c + 1);
        assert WordAt(s, v).value.Some? <==> WordEnd(s, v) > v;
      }
    }
  }

  /**
   * A successful `pair` gives the first word case-folded and the second as
   * written, and leaves the cursor right after the second.
   */
  lemma PairAtReads(s: string, i: nat)
    requires i <= |s| && PairAt(s, i).value.Some?
    ensures var r := PairAt(s, i); var p := WordEnd(s, i); var c := WhitespaceEnd(s, p);
      c < |s| &&
      var v := WhitespaceEnd(s, c + 1);
      r.cursor == WordEnd(s, v) && r.value.value == (Lower(s[i..p]), s[v..r.cursor])
  {
    var p := WordEnd(s, i);
    assert WordAt(s, i) == Scan(Some(s[i..p]), p);
    var c := WhitespaceEnd(s, p);
    var v := WhitespaceEnd(s, c + 1);
    var e := WordEnd(s, v);
    assert WordAt(s, v) == Scan(Some(s[v..e]), e);
    assert PairAt(s, i) == Scan(Some((Lower(s[i..p]), s[v..e])), e);
  }

  /** The state `body` carries from one iteration to the next. */
  datatype BodyState = BodyState(pairs: map<string, string>, cursor: nat, going: bool)

  /**
   * One iteration of the loop in `body`. A good declaration is stored (a
   * later duplicate overwrites an earlier one) and must be followed by `;`.
   * On any failure the text is skipped up to and including the next `;`; when
   * no `;` remains the loop stops, keeping a pair stored before the missing
   * `;`. An iteration that goes on always moves the cursor forward.
   */
  function BodyStep(s: string, i: nat, pairs: map<string, string>): (r: BodyState)
    requires i < |s|
    ensures i <= r.cursor <= |s|
    ensures r.going ==> r.cursor > i
  {
    var pr := PairAt(s, i);
    var stored := if pr.value.Some? then pairs[Lower(pr.value.value.0) := pr.value.value.1] else pairs;
    var j := if pr.value.Some? then WhitespaceEnd(s, pr.cursor) else pr.cursor;
    if pr.value.Some? && j < |s| && s[j] == ';' then
      BodyState(stored, WhitespaceEnd(s, j + 1), true)
    else
      Recovered(s, j, stored)
  }

  /**
   * The recovery in `body`: skip to the next `;` and go on behind it and the
   * spaces after it, or stop at the end when no `;` is left.
   */
  function Recovered(s: string, j: nat, stored: map<string, string>): (r: BodyState)
    requires j <= |s|
    ensures j <= r.cursor <= |s| && r.pairs == stored
    ensures r.going <==> ';' in s[j..]
    ensures var k := IgnoreUntilEnd(s, j, {';'});
      r.going ==> k < r.cursor && s[k] == ';' && r.cursor == WhitespaceEnd(s, k + 1)
    ensures !r.going ==> r.cursor == |s|
  {
    var k := IgnoreUntilEnd(s, j, {';'});
    if k < |s| then
      assert s[j..][k - j] == ';';
      BodyState(stored, WhitespaceEnd(s, k + 1), true)
    else
      assert forall m :: 0 <= m < |s[j..]| ==> s[j..][m] == s[j + m];
      BodyState(stored, k, false)
  }

  lemma RecoveredUnfold(s: string, j: nat, stored: map<string, string>)
    requires j <= |s|
    ensures var k := IgnoreUntilEnd(s, j, {';'});
      Recovered(s, j, stored) == if k < |s| then BodyState(stored, WhitespaceEnd(s, k + 1), true) else BodyState(stored, |s|, false)
  {
  }

  /** `body` from cursor i with the pairs found so far: the pairs it returns and the cursor it leaves. */
  function BodyFrom(s: string, i: nat, pairs: map<string, string>): (r: (map<string, string>, nat))
    requires i <= |s|
    ensures i <= r.1 <= |s|
    decreases |s| - i
  {
    if i >= |s| then (pairs, i)
    else
      var st := BodyStep(s, i, pairs);
      if st.going then BodyFrom(s, st.cursor, st.pairs) else (st.pairs, st.cursor)
  }

  lemma BodyUnfold(s: string, i: nat, pairs: map<string, string>)
    requires i < |s|
    ensures var st := BodyStep(s, i, pairs);
      BodyFrom(s, i, pairs) == if st.going then BodyFrom(s, st.cursor, st.pairs) else (st.pairs, st.cursor)
  {
  }

  lemma StepKeeps(s: string, i: nat, pairs: map<string, string>)
    requires i < |s|
    ensures pairs.Keys <= BodyStep(s, i, pairs).pairs.Keys
    ensures WellFormed(pairs) ==> WellFormed(BodyStep(s, i, pairs).pairs)
  {
    var pr := PairAt(s, i);
    if pr.value.Some? {
      StoreWellFormed(pairs, pr.value.value.0, pr.value.value.1);
    }
  }

  /**
   * Nothing stored is ever removed, and every stored property is case-folded
   * with a word for its value.
   */
  lemma {:induction false} BodyKeeps(s: string, i: nat, pairs: map<string, string>)
    requires i <= |s|
    ensures pairs.Keys <= BodyFrom(s, i, pairs).0.Keys
    ensures WellFormed(pairs) ==> WellFormed(BodyFrom(s, i, pairs).0)
    decreases |s| - i
  {
    if i < |s| {
      var st := BodyStep(s, i, pairs);
      StepKeeps(s, i, pairs);
      if st.going {
        BodyKeeps(s, st.cursor, st.pairs);
      }
    }
  }

  /** The declarations `body` returns for a whole declaration text. */
  function Declarations(s: string): (r: map<string, string>)
    ensures WellFormed(r)
  {
    BodyKeeps(s, 0, map[]);
    BodyFrom(s, 0, map[]).0
  }

  /** `word` stops exactly at the end of a run of word characters. */
  lemma {:induction false} WordEndAt(s: string, i: nat, j: nat)
    requires i <= j <= |s|
    requires forall k :: i <= k < j ==> IsWordChar(s[k])
    requires j == |s| || !IsWordChar(s[j])
    ensures WordEnd(s, i) == j
    decreases j - i
  {
    if i < j {
      WordEndAt(s, i + 1, j);
    }
  }

  /** `word` at lo reads exactly a word w written there and ended by a non-word character or the end. */
  lemma WordAtWord(s: string, lo: nat, w: string)
    requires IsWord(w) && lo + |w| <= |s| && s[lo..lo + |w|] == w
    requires lo + |w| == |s| || !IsWordChar(s[lo + |w|])
    ensures WordAt(s, lo) == Scan(Some(w), lo + |w|)
  {
    forall k | lo <= k < lo + |w|
      ensures IsWordChar(s[k])
    {
      assert s[k] == s[lo..lo + |w|][k - lo];
    }
    WordEndAt(s, lo, lo + |w|);
  }

  /** `whitespace` stops exactly at the end of a run of spaces. */
  lemma {:induction false} WhitespaceEndAt(s: string, i: nat, j: nat)
    requires i <= j <= |s|
    requires forall k :: i <= k < j ==> IsSpace(s[k])
    requires j == |s| || !IsSpace(s[j])
    ensures WhitespaceEnd(s, i) == j
    decreases j - i
  {
    if i < j {
      WhitespaceEndAt(s, i + 1, j);
    }
  }

  /**
   * A declaration `prop : value` written at i: the property s[i..p], spaces,
   * the `:` at c, spaces, and the value s[v..e], which ends at the end of the
   * text or before a character `word` does not take.
   */
  predicate DeclarationAt(s: string, i: nat, p: nat, c: nat, v: nat, e: nat) {
    && i < p <= c < v < e <= |s|
    && (forall k :: i <= k < p ==> IsWordChar(s[k]))
    && (forall k :: p <= k < c ==> IsSpace(s[k]))
    && s[c] == ':'
    && (forall k :: c < k < v ==> IsSpace(s[k]))
    && (forall k :: v <= k < e ==> IsWordChar(s[k]))
    && (e == |s| || !IsWordChar(s[e]))
  }

  /** `pair` reads `prop : value` at i as the case-folded property and the value, ending where the value ends. */
  lemma PairAtDeclaration(s: string, i: nat, p: nat, c: nat, v: nat, e: nat)
    requires DeclarationAt(s, i, p, c, v, e)
    ensures PairAt(s, i) == Scan(Some((Lower(s[i..p]), s[v..e])), e)
  {
    WordEndAt(s, i, p);
    WhitespaceEndAt(s, p, c);
    WhitespaceEndAt(s, c + 1, v);
    WordEndAt(s, v, e);
  }

  /**
   * A declaration `prop : value ;` at i, spaces allowed around the `:` and
   * before the `;`, is stored under the case-folded property, overwriting any
   * earlier value, and `body` goes on after the `;` and the spaces that
   * follow it.
   */
  lemma GoodDeclaration(s: string, i: nat, pairs: map<string, string>, p: nat, c: nat, v: nat, e: nat, q: nat)
    requires DeclarationAt(s, i, p, c, v, e)
    requires e <= q < |s| && s[q] == ';' && forall k :: e <= k < q ==> IsSpace(s[k])
    ensures BodyFrom(s, i, pairs) == BodyFrom(s, WhitespaceEnd(s, q + 1), pairs[Lower(s[i..p]) := s[v..e]])
  {
    GoodDeclarationStep(s, i, pairs, p, c, v, e, q);
    BodyUnfold(s, i, pairs);
  }

  lemma GoodDeclarationStep(s: string, i: nat, pairs: map<string, string>, p: nat, c: nat, v: nat, e: nat, q: nat)
    requires DeclarationAt(s, i, p, c, v, e)
    requires e <= q < |s| && s[q] == ';' && forall k :: e <= k < q ==> IsSpace(s[k])
    ensures BodyStep(s, i, pairs) == BodyState(pairs[Lower(s[i..p]) := s[v..e]], WhitespaceEnd(s, q + 1), true)
  {
    PairAtDeclaration(s, i, p, c, v, e);
    LowerIdempotent(s[i..p]);
    WhitespaceEndAt(s, e, q);
  }

  /** `pair` never reads past a `;`, whether it succeeds or fails. */
  lemma PairStopsAtSemicolon(s: string, i: nat)
    requires i <= |s|
    ensures forall k :: i <= k < PairAt(s, i).cursor ==> s[k] != ';'
  {
    var p := WordEnd(s, i);
    var c := WhitespaceEnd(s, p);
    forall k | i <= k < PairAt(s, i).cursor
      ensures s[k] != ';'
    {
      if k >= p && k > c {
        var v := WhitespaceEnd(s, c + 1);
        assert k >= v ==> IsWordChar(s[k]);
      }
    }
  }

  /** Skipping characters that are not `;` does not move where the next `;` is found. */
  lemma {:induction false} IgnoreUntilSkips(s: string, i: nat, j: nat)
    requires i <= j <= |s| && forall k :: i <= k < j ==> s[k] != ';'
    ensures IgnoreUntilEnd(s, i, {';'}) == IgnoreUntilEnd(s, j, {';'})
    decreases j - i
  {
    if i < j {
      IgnoreUntilSkips(s, i + 1, j);
    }
  }

  /**
   * A declaration `pair` cannot read is dropped: the text is skipped up to the
   * next `;`, and `body` goes on behind it or, with no `;` left, stops with
   * the pairs unchanged.
   */
  lemma SkipsBadDeclaration(s: string, i: nat, pairs: map<string, string>)
    requires i < |s| && PairAt(s, i).value.None?
    ensures var k := IgnoreUntilEnd(s, i, {';'});
      BodyFrom(s, i, pairs) == if k < |s| then BodyFrom(s, WhitespaceEnd(s, k + 1), pairs) else (pairs, |s|)
  {
    BadDeclarationStep(s, i, pairs);
    BodyUnfold(s, i, pairs);
    RecoveredUnfold(s, i, pairs);
  }

  lemma BadDeclarationStep(s: string, i: nat, pairs: map<string, string>)
    requires i < |s| && PairAt(s, i).value.None?
    ensures BodyStep(s, i, pairs) == Recovered(s, i, pairs)
  {
    PairStopsAtSemicolon(s, i);
    IgnoreUntilSkips(s, i, PairAt(s, i).cursor);
  }

  /**
   * A declaration read whole but not followed by `;` (the `a:b` of `a:b c:d;`)
   * is still stored, because the store comes before the `;` check; the text
   * up to the next `;` is then skipped, so `c:d` is lost.
   */
  lemma UnterminatedDeclaration(s: string, i: nat, pairs: map<string, string>)
    requires i < |s| && PairAt(s, i).value.Some?
    requires var j := WhitespaceEnd(s, PairAt(s, i).cursor); !(j < |s| && s[j] == ';')
    ensures var pr := PairAt(s, i).value.value; var stored := pairs[pr.0 := pr.1];
      var k := IgnoreUntilEnd(s, i, {';'});
      BodyFrom(s, i, pairs) == if k < |s| then BodyFrom(s, WhitespaceEnd(s, k + 1), stored) else (stored, |s|)
  {
    var pr := PairAt(s, i).value.value;
    UnterminatedStep(s, i, pairs);
    BodyUnfold(s, i, pairs);
    RecoveredUnfold(s, i, pairs[pr.0 := pr.1]);
  }

  lemma UnterminatedStep(s: string, i: nat, pairs: map<string, string>)
    requires i < |s| && PairAt(s, i).value.Some?
    requires var j := WhitespaceEnd(s, PairAt(s, i).cursor); !(j < |s| && s[j] == ';')
    ensures var pr := PairAt(s, i).value.value; BodyStep(s, i, pairs) == Recovered(s, i, pairs[pr.0 := pr.1])
  {
    var pr := PairAt(s, i);
    var j := WhitespaceEnd(s, pr.cursor);
    var stored := pairs[pr.value.value.0 := pr.value.value.1];
    FoldedIsLower(pr.value.value.0);
    assert BodyStep(s, i, pairs) == Recovered(s, j, stored);
    PairStopsAtSemicolon(s, i);
    IgnoreUntilSkips(s, i, j);
    RecoveredUnfold(s, i, stored);
    RecoveredUnfold(s, j, stored);
  }

  /** A last declaration without its `;` is still kept, and `body` ends there. */
  lemma LastDeclarationKept(s: string, i: nat, pairs: map<string, string>)
    requires i < |s| && PairAt(s, i).value.Some? && ';' !in s[i..]
    ensures var pr := PairAt(s, i).value.value; BodyFrom(s, i, pairs) == (pairs[pr.0 := pr.1], |s|)
  {
    var j := WhitespaceEnd(s, PairAt(s, i).cursor);
    if j < |s| {
      assert s[j] == s[i..][j - i];
    }
    UnterminatedDeclaration(s, i, pairs);
  }

  /** Text without a `:` holds no declaration: `body` returns the pairs it was given. */
  lemma {:induction false} NoColonNoDeclarations(s: string, i: nat, pairs: map<string, string>)
    requires i <= |s| && ':' !in s
    ensures BodyFrom(s, i, pairs).0 == pairs
    decreases |s| - i
  {
    if i < |s| {
      var st := BodyStep(s, i, pairs);
      BodyUnfold(s, i, pairs);
      if st.going {
        NoColonNoDeclarations(s, st.cursor, st.pairs);
      }
    }
  }

  class CSSParser {
    const s: string
    var i: nat

    ghost predicate Valid()
      reads this
    {
      i <= |s|
    }

    constructor (s: string)
      ensures this.s == s && i == 0 && Valid()
    {
      this.s := s;
      i := 0;
    }

    method Whitespace()
      requires Valid()
      modifies this
      ensures Valid() && i == WhitespaceEnd(s, old(i))
    {
      while i < |s| && IsSpace(s[i])
        invariant old(i) <= i <= |s|
        invariant WhitespaceEnd(s, i) == WhitespaceEnd(s, old(i))
      {
        i := i + 1;
      }
    }

    method Word() returns (w: Option<string>)
      requires Valid()
      modifies this
      ensures Valid() && Scan(w, i) == WordAt(s, old(i))
    {
      var start := i;
      while i < |s|
        invariant start <= i <= |s|
        invariant WordEnd(s, i) == WordEnd(s, start)
      {
        if IsWordChar(s[i]) {
          i := i + 1;
        } else {
          break;
        }
      }
      if !(i > start) {
        return None;
      }
      w := Some(s[start..i]);
    }

    method Literal(c: char) returns (ok: bool)
      requires Valid()
      modifies this
      ensures Valid()
      ensures ok == (old(i) < |s| && s[old(i)] == c)
      ensures i == if ok then old(i) + 1 else old(i)
    {
      if !(i < |s| && s[i] == c) {
        return false;
      }
      i := i + 1;
      ok := true;
    }

    method Pair() returns (p: Option<(string, string)>)
      requires Valid()
      modifies this
      ensures Valid() && Scan(p, i) == PairAt(s, old(i))
    {
      var prop := Word();
      if prop.None? {
        return None;
      }
      Whitespace();
      var colon := Literal(':');
      if !colon {
        return None;
      }
      Whitespace();
      var val := Word();
      if val.None? {
        return None;
      }
      p := Some((Lower(prop.value), val.value));
    }

    method IgnoreUntil(chars: set<char>) returns (found: Option<char>)
      requires Valid()
      modifies this
      ensures Valid() && i == IgnoreUntilEnd(s, old(i), chars)
      ensures found == if i < |s| then Some(s[i]) else None
    {
      while i < |s|
        invariant old(i) <= i <= |s|
        invariant IgnoreUntilEnd(s, i, chars) == IgnoreUntilEnd(s, old(i), chars)
      {
        if s[i] in chars {
          return Some(s[i]);
        } else {
          i := i + 1;
        }
      }
      return None;
    }

    /**
     * One pass of the loop in `body`: try a declaration ending in `;`, and on
     * failure skip past the next `;`, or report that none is left.
     */
    method BodyIteration(pairs: map<string, string>) returns (pairs': map<string, string>, going: bool)
      requires Valid() && i < |s|
      modifies this
      ensures Valid() && BodyState(pairs', i, going) == BodyStep(s, old(i), pairs)
    {
      ghost var st := BodyStep(s, i, pairs);
      pairs' := pairs;
      var pr := Pair();
      if pr.Some? {
        pairs' := pairs'[Lower(pr.value.0) := pr.value.1];
        Whitespace();
        var semi := Literal(';');
        if semi {
          Whitespace();
          assert st == BodyState(pairs', i, true);
          return pairs', true;
        }
      }
      going := Recover(pairs');
    }

    /** The recovery half of the loop in `body`: skip past the next `;`, or report that none is left. */
    method Recover(stored: map<string, string>) returns (going: bool)
      requires Valid()
      modifies this
      ensures Valid() && BodyState(stored, i, going) == Recovered(s, old(i), stored)
    {
      var why := IgnoreUntil({';'});
      if why == Some(';') {
        var _ := Literal(';');
        Whitespace();
        going := true;
      } else {
        going := false;
      }
    }

    method Body() returns (pairs: map<string, string>)
      requires Valid()
      modifies this
      ensures Valid() && (pairs, i) == BodyFrom(s, old(i), map[])
    {
      pairs := map[];
      while i < |s|
        invariant Valid()
        invariant BodyFrom(s, i, pairs) == BodyFrom(s, old(i), map[])
        decreases |s| - i
      {
        BodyUnfold(s, i, pairs);
        var going;
        pairs, going := BodyIteration(pairs);
        if !going {
          break;
        }
      }
    }
  }

  /** What `style` stores in one node: the inline declarations of an element, nothing for a text. */
  function InlineStyle(n: Node): map<string, string> {
    if n.Element? && "style" in n.attributes then Declarations(n.attributes["style"]) else map[]
  }

  /** The tree after `style`: every node's map is reset and refilled from its own `style` attribute. */
  function Styled(n: Node): Node {
    match n
    case Text(t, _) => Text(t, map[])
    case Element(tag, attrs, ch, _) =>
      Element(tag, attrs, seq(|ch|, k requires 0 <= k < |ch| => Styled(ch[k])), InlineStyle(n))
  }

  /** Two trees that differ at most in their style maps. */
  predicate SameShape(a: Node, b: Node) {
    match a
    case Text(t, _) => b.Text? && b.text == t
    case Element(tag, attrs, ch, _) =>
      && b.Element? && b.tag == tag && b.attributes == attrs && |b.children| == |ch|
      && forall k :: 0 <= k < |ch| ==> SameShape(ch[k], b.children[k])
  }

  /** Every style map in the tree holds case-folded properties with word values. */
  predicate StylesWellFormed(n: Node) {
    WellFormed(n.style) &&
    match n
    case Text(_, _) => true
    case Element(_, _, ch, _) => forall k :: 0 <= k < |ch| ==> StylesWellFormed(ch[k])
  }

  /** `style` changes no text, tag, attribute or child: it only rewrites the style maps. */
  lemma {:induction false} StyledShape(n: Node)
    ensures SameShape(n, Styled(n))
  {
    match n
    case Text(_, _) =>
    case Element(_, _, ch, _) =>
      forall k | 0 <= k < |ch|
        ensures SameShape(ch[k], Styled(n).children[k])
      {
        StyledShape(ch[k]);
      }
  }

  /** After `style` every map in the tree holds case-folded properties with word values. */
  lemma {:induction false} StyledWellFormed(n: Node)
    ensures StylesWellFormed(Styled(n))
  {
    match n
    case Text(_, _) =>
    case Element(_, _, ch, _) =>
      forall k | 0 <= k < |ch|
        ensures StylesWellFormed(Styled(n).children[k])
      {
        StyledWellFormed(ch[k]);
      }
  }

  /** Running `style` a second time changes nothing: earlier maps are reset, not merged. */
  lemma {:induction false} StyledIdempotent(n: Node)
    ensures Styled(Styled(n)) == Styled(n)
  {
    match n
    case Text(_, _) =>
    case Element(_, _, ch, _) =>
      var once := Styled(n);
      forall k | 0 <= k < |ch|
        ensures Styled(once.children[k]) == once.children[k]
      {
        StyledIdempotent(ch[k]);
      }
      assert Styled(once).children == once.children;
  }

  /**
   * `style(dom_node)`: resets the node's map, fills it from a fresh CSSParser
   * over its `style` attribute, then recurses into every child.
   */
  method Style(node: Node) returns (r: Node)
    ensures r == Styled(node)
  {
    var style: map<string, string> := map[];
    if node.Element? && "style" in node.attributes {
      var parser := new CSSParser(node.attributes["style"]);
      var pairs := parser.Body();
      style := pairs;
    }
    assert style == InlineStyle(node);
    match node {
      case Text(t, _) =>
        r := Text(t, style);
      case Element(tag, attrs, ch, _) =>
        var done: seq<Node> := [];
        for k := 0 to |ch|
          invariant done == seq(k, j requires 0 <= j < k => Styled(ch[j]))
        {
          var c := Style(ch[k]);
          done := done + [c];
        }
        r := Element(tag, attrs, done, style);
    }
  }
}
