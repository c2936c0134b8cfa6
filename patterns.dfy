/**
 * The regular expressions of the CSS completion helper, each written out as the
 * match the JavaScript engine computes for it (edit/codemirror-default.js:235-238
 * and 280-285).
 */
module Patterns {
  import opened Wrappers
  import opened Chars
  import opened Sorting

  // ---------------------------------------------------------------------------
  // RX_IMPORTANT = /(i(m(p(o(r(t(a(nt?)?)?)?)?)?)?)?)?(?=\b|\W|$)/iy
  // ---------------------------------------------------------------------------

  const Important := "important"

  /** `text[ch..ch+k]` is the first `k` letters of "important", ignoring ASCII case. */
  predicate ImportantPrefixAt(text: string, ch: nat, k: nat)
    requires k <= |Important|
  {
    ch + k <= |text| && forall i :: 0 <= i < k ==> LowerAscii(text[ch + i]) == Important[i]
  }

  /** The lookahead `(?=\b|\W|$)` holds at `p`. */
  predicate WordEndAhead(text: string, p: nat) {
    var before := 0 < p <= |text| && IsWordChar(text[p - 1]);
    var after := p < |text| && IsWordChar(text[p]);
    before != after || (p < |text| && !IsWordChar(text[p])) || p == |text|
  }

  /**
   * The nested optional groups are greedy, so the engine tries the longest prefix
   * of "important" first and backtracks one letter at a time until the lookahead holds.
   */
  function ImportantMatchUpTo(text: string, ch: nat, k: nat): (r: Option<nat>)
    requires k <= |Important|
    ensures r.Some? ==> r.value <= k && ImportantPrefixAt(text, ch, r.value) && WordEndAhead(text, ch + r.value)
    ensures forall j :: (if r.Some? then r.value else -1) < j <= k ==>
      !(ImportantPrefixAt(text, ch, j) && WordEndAhead(text, ch + j))
    decreases k
  {
    if ImportantPrefixAt(text, ch, k) && WordEndAhead(text, ch + k) then Some(k)
    else if k == 0 then None
    else ImportantMatchUpTo(text, ch, k - 1)
  }

  /** `RX_IMPORTANT.exec(text)[0].length` with `lastIndex = ch`; `None` where exec returns null. */
  function ImportantExec(text: string, ch: nat): (r: Option<nat>)
    ensures r.Some? ==> ch + r.value <= |text| && r.value <= |Important| && WordEndAhead(text, ch + r.value)
    ensures r.Some? ==> forall j :: 0 <= j < r.value ==> LowerAscii(text[ch + j]) == Important[j]
    ensures ch <= |text| && WordEndAhead(text, ch) ==> r.Some?
  {
    if ch <= |text| then
      assert ImportantPrefixAt(text, ch, 0);
      ImportantMatchUpTo(text, ch, |Important|)
    else None
  }

  /** The length of the `\w` run starting at `ch`. */
  function WordRun(text: string, ch: nat): nat
    requires ch <= |text|
  {
    RunEnd(text, ch, IsWordChar) - ch
  }

  /**
   * What the sticky match comes to: the word typed after `!` when it is a
   * case-insensitive prefix of "important", and nothing otherwise.
   */
  function ImportantLength(text: string, ch: nat): (n: nat)
    requires ch <= |text|
    ensures n <= |Important| && ch + n <= |text|
  {
    var w := WordRun(text, ch);
    if w <= |Important| && ImportantPrefixAt(text, ch, w) then w else 0
  }

  lemma PrefixIsWord(text: string, ch: nat, k: nat)
    requires k <= |Important| && ImportantPrefixAt(text, ch, k)
    ensures forall i :: ch <= i < ch + k ==> IsWordChar(text[i])
  {
    forall i | ch <= i < ch + k ensures IsWordChar(text[i]) {
      assert LowerAscii(text[ch + (i - ch)]) == Important[i - ch];
    }
  }

  /** A word of exactly `k` characters starts at `ch` iff the lookahead holds after them. */
  lemma WordRunExactly(text: string, ch: nat, k: nat)
    requires 0 < k && ch + k <= |text|
    requires forall i :: ch <= i < ch + k ==> IsWordChar(text[i])
    ensures RunEnd(text, ch, IsWordChar) >= ch + k
    ensures WordRun(text, ch) == k <==> WordEndAhead(text, ch + k)
  {
  }

  lemma {:induction false} ImportantMatchUpToIs(text: string, ch: nat, k: nat)
    requires 0 < ch <= |text| && !IsWordChar(text[ch - 1])
    requires k <= |Important|
    ensures var w := WordRun(text, ch);
      ImportantMatchUpTo(text, ch, k) == Some(if 1 <= w <= k && ImportantPrefixAt(text, ch, w) then w else 0)
    decreases k
  {
    var w := WordRun(text, ch);
    if k == 0 {
      assert WordEndAhead(text, ch);
    } else if ImportantPrefixAt(text, ch, k) && WordEndAhead(text, ch + k) {
      PrefixIsWord(text, ch, k);
      WordRunExactly(text, ch, k);
    } else {
      ImportantMatchUpToIs(text, ch, k - 1);
      if w == k && ImportantPrefixAt(text, ch, w) {
        PrefixIsWord(text, ch, k);
        WordRunExactly(text, ch, k);
      }
    }
  }

  /**
   * After a `!` the sticky match never fails, and it spans exactly the typed word
   * when that word prefixes "important" (0 to 9 characters), and nothing otherwise.
   */
  lemma ImportantExecIsLength(text: string, ch: nat)
    requires 0 < ch <= |text| && text[ch - 1] == '!'
    ensures ImportantExec(text, ch) == Some(ImportantLength(text, ch))
  {
    ImportantMatchUpToIs(text, ch, |Important|);
  }

  // ---------------------------------------------------------------------------
  // RX_VAR_KEYWORD = /(^|[^-\w\u0080-\uFFFF])var\(/iy, tried by testAt
  // ---------------------------------------------------------------------------

  /** `text[i..i+|lit|]` equals the lower-case literal `lit`, ignoring ASCII case. */
  predicate MatchesIgnoringCase(text: string, i: nat, lit: string) {
    i + |lit| <= |text| && forall j :: 0 <= j < |lit| ==> LowerAscii(text[i + j]) == lit[j]
  }

  /** `testAt(RX_VAR_KEYWORD, p, text)`: the sticky pattern matches at `p`. */
  predicate VarKeywordAt(text: string, p: nat)
    ensures VarKeywordAt(text, p) ==> p + 4 <= |text|
    ensures VarKeywordAt(text, p) && 0 < p ==> !IsNameChar(text[p]) && p + 5 <= |text|
  {
    (p == 0 && MatchesIgnoringCase(text, 0, "var(")) ||
    (p < |text| && !IsNameChar(text[p]) && MatchesIgnoringCase(text, p + 1, "var("))
  }

  lemma MatchesIgnoringCaseAt(text: string, i: nat, lit: string, j: nat)
    requires MatchesIgnoringCase(text, i, lit) && j < |lit|
    ensures LowerAscii(text[i + j]) == lit[j]
  {
  }

  /**
   * Tried at `max(0, q - 4)` for a `(` at `q`, the pattern says that this `(` closes a
   * `var(` at line start or after a non-name character; because the start is clamped
   * at 0, it also holds for a `(` at 4 on a line that starts with `var(`, and for a `(`
   * at 0 that `var(` follows.
   */
  lemma VarKeywordBefore(text: string, q: nat)
    requires q < |text| && text[q] == '('
    ensures VarKeywordAt(text, if q >= 4 then q - 4 else 0) <==>
      (q >= 3 && MatchesIgnoringCase(text, q - 3, "var(") && (q == 3 || !IsNameChar(text[q - 4]))) ||
      (q == 4 && MatchesIgnoringCase(text, 0, "var(")) ||
      (q == 0 && MatchesIgnoringCase(text, 1, "var("))
  {
    var p := if q >= 4 then q - 4 else 0;
    if p == 0 && MatchesIgnoringCase(text, 0, "var(") && q < 4 {
      MatchesIgnoringCaseAt(text, 0, "var(", q);
    }
    if p < |text| && MatchesIgnoringCase(text, p + 1, "var(") && 0 < q < 4 {
      MatchesIgnoringCaseAt(text, 1, "var(", q - 1);
    }
  }

  // ---------------------------------------------------------------------------
  // RX_END_OF_VAR = /[\s,)]|$/g
  // ---------------------------------------------------------------------------

  predicate IsEndOfVarChar(c: char) {
    IsSpace(c) || c == ',' || c == ')'
  }

  /** `RX_END_OF_VAR.exec(text).index` with `lastIndex = p`; `None` where exec returns null. */
  function EndOfVar(text: string, p: nat): (r: Option<nat>)
    ensures r.Some? <==> p <= |text|
    ensures r.Some? ==> p <= r.value <= |text|
    ensures r.Some? && r.value < |text| ==> IsEndOfVarChar(text[r.value])
    ensures r.Some? ==> forall i :: p <= i < r.value ==> !IsEndOfVarChar(text[i])
    decreases |text| - p
  {
    if p > |text| then None
    else if p == |text| || IsEndOfVarChar(text[p]) then Some(p)
    else EndOfVar(text, p + 1)
  }

  // ---------------------------------------------------------------------------
  // RX_CONSUME_PROP = /[-\w]*\s*:\s?|$/y
  // ---------------------------------------------------------------------------

  predicate IsPropChar(c: char) {
    IsWordChar(c) || c == '-'
  }

  /**
   * `RX_CONSUME_PROP.exec(text)[0].length` with `lastIndex = t`, as written: the rest of
   * a property name, blanks, a colon and at most one blank; or the empty `$` match at
   * the end of the line. `None` where exec returns null, which line 310 then dereferences.
   */
  function ConsumePropAsWritten(text: string, t: nat): (r: Option<nat>)
    ensures r.Some? ==> t + r.value <= |text|
    ensures t == |text| ==> r == Some(0)
    ensures t > |text| ==> r.None?
  {
    if t > |text| then None
    else
      var a := RunEnd(text, t, IsPropChar);
      var b := RunEnd(text, a, IsSpace);
      if b < |text| && text[b] == ':' then
        Some(b + 1 - t + (if b + 1 < |text| && IsSpace(text[b + 1]) then 1 else 0))
      else if t == |text| then Some(0)
      else None
  }

  /**
   * Mid-line, a property name that no colon follows makes the match fail:
   * `a { colo }` with the fallback's range ending after `colo`.
   */
  lemma ConsumePropFailsMidLine()
    ensures ConsumePropAsWritten("a { colo }", 8).None?
  {
    var text := "a { colo }";
    assert !IsPropChar(text[8]);
    assert RunEnd(text, 8, IsPropChar) == 8;
    assert IsSpace(text[8]) && !IsSpace(text[9]);
    assert RunEnd(text, 9, IsSpace) == 9;
    assert RunEnd(text, 8, IsSpace) == 9;
  }

  /**
   * The consumed length with the evidently intended empty alternative: what the
   * pattern matches where it matches, and nothing where it does not.
   */
  function ConsumeProp(text: string, t: nat): (n: nat)
    ensures ConsumePropAsWritten(text, t).Some? ==> n == ConsumePropAsWritten(text, t).value
    ensures ConsumePropAsWritten(text, t).None? ==> n == 0
    ensures t <= |text| ==> t + n <= |text|
  {
    match ConsumePropAsWritten(text, t)
    case Some(n) => n
    case None => 0
  }

  /** When the colon is there, the consumed text ends right after it or after one blank. */
  lemma ConsumePropEndsAfterColon(text: string, t: nat)
    requires t <= |text| && ConsumeProp(text, t) > 0
    ensures var e := t + ConsumeProp(text, t);
      (text[e - 1] == ':' || (e >= 2 && text[e - 2] == ':' && IsSpace(text[e - 1])))
    ensures forall i :: t <= i < t + ConsumeProp(text, t) ==>
      IsPropChar(text[i]) || IsSpace(text[i]) || text[i] == ':'
  {
  }

  // ---------------------------------------------------------------------------
  // RX_CSS_VAR, built at lines 280-285, and the search over the document
  // ---------------------------------------------------------------------------

  /**
   * `(?:^|[\s/;{])(<prefix>[a-zA-Z_\u0080-\uFFFF]?[-0-9a-zA-Z_\u0080-\uFFFF]*)`, where the
   * middle class is present iff `needsNameStart`.
   */
  datatype VarPattern = VarPattern(prefix: string, needsNameStart: bool)

  /** The pattern built from the text typed so far, `leftPart` taken literally. */
  function CssVarPattern(leftPart: string): (p: VarPattern)
    ensures StartsWith(p.prefix, "--")
    ensures StartsWith(leftPart, "--") ==> p.prefix == leftPart
    ensures p.needsNameStart <==> |leftPart| <= 2
  {
    VarPattern(if StartsWith(leftPart, "--") then leftPart else "--", |leftPart| <= 2)
  }

  predicate IsVarDelimiter(c: char) {
    IsSpace(c) || c == '/' || c == ';' || c == '{'
  }

  /** The end of the capture group when it matches at `g`; the group is greedy and nothing follows it. */
  function GroupAt(line: string, g: nat, pat: VarPattern): (r: Option<nat>)
    ensures r.Some? ==> g + |pat.prefix| <= r.value <= |line| && line[g..g + |pat.prefix|] == pat.prefix
    ensures r.Some? ==> forall k :: g + |pat.prefix| <= k < r.value ==> IsNameChar(line[k])
    ensures r.Some? ==> r.value == |line| || !IsNameChar(line[r.value])
    ensures r.Some? && pat.needsNameStart ==>
      g + |pat.prefix| < r.value && IsNameStart(line[g + |pat.prefix|])
    ensures (g + |pat.prefix| <= |line| && line[g..g + |pat.prefix|] == pat.prefix &&
             (!pat.needsNameStart || (g + |pat.prefix| < |line| && IsNameStart(line[g + |pat.prefix|])))) ==>
            r.Some?
  {
    var b := g + |pat.prefix|;
    if b <= |line| && line[g..b] == pat.prefix then
      if !pat.needsNameStart then Some(RunEnd(line, b, IsNameChar))
      else if b < |line| && IsNameStart(line[b]) then Some(RunEnd(line, b + 1, IsNameChar))
      else None
    else None
  }

  /** One match: the whole match starts at `at`, the captured name is `line[start..end]`. */
  datatype Hit = Hit(at: nat, start: nat, end: nat)

  /** The match starting exactly at `s`: `^` is tried first, then a delimiter character. */
  function MatchAt(line: string, s: nat, pat: VarPattern): (r: Option<Hit>)
    ensures r.Some? ==> r.value.at == s && s <= r.value.start <= s + 1
    ensures r.Some? ==> GroupAt(line, r.value.start, pat) == Some(r.value.end)
    ensures r.Some? ==> r.value.start + |pat.prefix| <= r.value.end <= |line|
  {
    if s == 0 && GroupAt(line, 0, pat).Some? then Some(Hit(0, 0, GroupAt(line, 0, pat).value))
    else if s < |line| && IsVarDelimiter(line[s]) && GroupAt(line, s + 1, pat).Some? then
      Some(Hit(s, s + 1, GroupAt(line, s + 1, pat).value))
    else None
  }

  /** A match captures an occurrence: the group starts at line start or after a delimiter. */
  lemma MatchAtOccurs(line: string, s: nat, pat: VarPattern)
    requires MatchAt(line, s, pat).Some?
    ensures var h := MatchAt(line, s, pat).value; OccursAt(line, h.start, h.end, pat)
  {
  }

  /** `exec` of the global pattern from `lastIndex = from`: the leftmost match at or after it. */
  function FindFrom(line: string, from: nat, pat: VarPattern): (r: Option<Hit>)
    ensures r.Some? ==> from <= r.value.at <= |line| && MatchAt(line, r.value.at, pat) == r
    decreases |line| + 1 - from
  {
    if from > |line| then None
    else
      var m := MatchAt(line, from, pat);
      if m.Some? then m else FindFrom(line, from + 1, pat)
  }

  /** The match found is the leftmost: no match at or after `from` starts before it. */
  lemma {:induction false} FindFromLeftmost(line: string, from: nat, pat: VarPattern, s: nat)
    requires from <= s <= |line| && MatchAt(line, s, pat).Some?
    ensures FindFrom(line, from, pat).Some? && FindFrom(line, from, pat).value.at <= s
    decreases |line| + 1 - from
  {
    if MatchAt(line, from, pat).None? {
      FindFromLeftmost(line, from + 1, pat, s);
    }
  }

  /** `Set.prototype.add` on a set kept in insertion order. */
  function AddName(found: seq<string>, name: string): (r: seq<string>)
    ensures name in r && |found| <= |r| <= |found| + 1 && r[..|found|] == found
  {
    if name in found then found else found + [name]
  }

  /**
   * What `while (cursor.findNext()) list.add(cursor.pos.match[1])` collects: the search
   * cursor goes line by line, resuming each line after the end of the previous match.
   */
  function ScanFrom(doc: seq<string>, pat: VarPattern, line: nat, pos: nat, found: seq<string>): (r: seq<string>)
    requires |pat.prefix| > 0
    requires line < |doc| ==> pos <= |doc[line]|
    ensures |found| <= |r| && r[..|found|] == found
    decreases |doc| - line, if line < |doc| then |doc[line]| - pos else 0
  {
    if line >= |doc| then found
    else
      match FindFrom(doc[line], pos, pat)
      case Some(h) => ScanFrom(doc, pat, line, h.end, AddName(found, doc[line][h.start..h.end]))
      case None => ScanFrom(doc, pat, line + 1, 0, found)
  }

  /** One step of the scan: a match moves past its end and adds its name; no match moves to the next line. */
  lemma ScanStep(doc: seq<string>, pat: VarPattern, line: nat, pos: nat, found: seq<string>)
    requires |pat.prefix| > 0 && line < |doc| && pos <= |doc[line]|
    ensures FindFrom(doc[line], pos, pat).Some? ==>
      var h := FindFrom(doc[line], pos, pat).value;
      pos < h.end <= |doc[line]| && h.start <= h.end &&
      ScanFrom(doc, pat, line, pos, found) == ScanFrom(doc, pat, line, h.end, AddName(found, doc[line][h.start..h.end]))
    ensures FindFrom(doc[line], pos, pat).None? ==>
      ScanFrom(doc, pat, line, pos, found) == ScanFrom(doc, pat, line + 1, 0, found)
  {
  }

  /** Every name the pattern finds in the document, each once, in order of first occurrence. */
  function DocumentNames(doc: seq<string>, pat: VarPattern): (r: seq<string>)
    requires |pat.prefix| > 0
    ensures NoDuplicates(r)
  {
    ScanNoDuplicates(doc, pat, 0, 0, []);
    ScanFrom(doc, pat, 0, 0, [])
  }

  /** `line[g..e]` is a name the pattern captures: after line start or a delimiter, and maximal. */
  predicate OccursAt(line: string, g: nat, e: nat, pat: VarPattern) {
    g <= e <= |line| &&
    (g == 0 || IsVarDelimiter(line[g - 1])) &&
    GroupAt(line, g, pat) == Some(e)
  }

  ghost predicate OccursIn(doc: seq<string>, name: string, pat: VarPattern) {
    exists i: nat, g: nat, e: nat :: i < |doc| && OccursAt(doc[i], g, e, pat) && name == doc[i][g..e]
  }

  /**
   * An occurrence the search cannot step over: at line start, or after a delimiter
   * that is not itself a name character (the no-break spaces are both).
   */
  ghost predicate OccursSeparatedIn(doc: seq<string>, name: string, pat: VarPattern) {
    exists i: nat, g: nat, e: nat :: i < |doc| && OccursAt(doc[i], g, e, pat) && name == doc[i][g..e] &&
      (g == 0 || !IsNameChar(doc[i][g - 1]))
  }

  predicate PrefixHasNoDelimiter(pat: VarPattern) {
    forall k :: 0 <= k < |pat.prefix| ==> !IsVarDelimiter(pat.prefix[k])
  }

  lemma {:induction false} ScanKeeps(doc: seq<string>, pat: VarPattern, line: nat, pos: nat, found: seq<string>, x: string)
    requires |pat.prefix| > 0
    requires line < |doc| ==> pos <= |doc[line]|
    requires x in found
    ensures x in ScanFrom(doc, pat, line, pos, found)
    decreases |doc| - line, if line < |doc| then |doc[line]| - pos else 0
  {
    if line < |doc| {
      match FindFrom(doc[line], pos, pat)
      case Some(h) =>
        ScanKeeps(doc, pat, line, h.end, AddName(found, doc[line][h.start..h.end]), x);
      case None =>
        ScanKeeps(doc, pat, line + 1, 0, found, x);
    }
  }

  lemma {:induction false} ScanNoDuplicates(doc: seq<string>, pat: VarPattern, line: nat, pos: nat, found: seq<string>)
    requires |pat.prefix| > 0
    requires line < |doc| ==> pos <= |doc[line]|
    requires NoDuplicates(found)
    ensures NoDuplicates(ScanFrom(doc, pat, line, pos, found))
    decreases |doc| - line, if line < |doc| then |doc[line]| - pos else 0
  {
    if line < |doc| {
      match FindFrom(doc[line], pos, pat)
      case Some(h) =>
        ScanNoDuplicates(doc, pat, line, h.end, AddName(found, doc[line][h.start..h.end]));
      case None =>
        assert ScanFrom(doc, pat, line, pos, found) == ScanFrom(doc, pat, line + 1, 0, found);
        ScanNoDuplicates(doc, pat, line + 1, 0, found);
    }
  }

  lemma OccursInIntro(doc: seq<string>, x: string, pat: VarPattern, i: nat, g: nat, e: nat)
    requires i < |doc| && OccursAt(doc[i], g, e, pat) && x == doc[i][g..e]
    ensures OccursIn(doc, x, pat)
  {
  }

  lemma {:induction false} ScanSound(doc: seq<string>, pat: VarPattern, line: nat, pos: nat, found: seq<string>, x: string)
    requires |pat.prefix| > 0
    requires line < |doc| ==> pos <= |doc[line]|
    requires x in ScanFrom(doc, pat, line, pos, found)
    ensures x in found || OccursIn(doc, x, pat)
    decreases |doc| - line, if line < |doc| then |doc[line]| - pos else 0
  {
    if line < |doc| {
      match FindFrom(doc[line], pos, pat)
      case Some(h) =>
        var name := doc[line][h.start..h.end];
        var next := AddName(found, name);
        assert pos < h.end <= |doc[line]|;
        ScanSound(doc, pat, line, h.end, next, x);
        if x !in found && x in next {
          assert x == name;
          MatchAtOccurs(doc[line], h.at, pat);
          OccursInIntro(doc, x, pat, line, h.start, h.end);
        }
      case None =>
        ScanSound(doc, pat, line + 1, 0, found, x);
    }
  }

  /** A separated occurrence is where the search finds it: the match starting at its delimiter. */
  lemma MatchAtOccurrence(line: string, g: nat, e: nat, pat: VarPattern)
    requires |pat.prefix| > 0 && PrefixHasNoDelimiter(pat)
    requires OccursAt(line, g, e, pat)
    ensures var st := if g == 0 then 0 else g - 1;
      MatchAt(line, st, pat) == Some(Hit(st, g, e))
  {
  }

  /** A match that starts before a separating delimiter ends before it. */
  lemma HitEndsBeforeDelimiter(line: string, h: Hit, d: nat, pat: VarPattern)
    requires |pat.prefix| > 0 && PrefixHasNoDelimiter(pat)
    requires MatchAt(line, h.at, pat) == Some(h) && h.at < d < |line|
    requires IsVarDelimiter(line[d]) && !IsNameChar(line[d])
    ensures h.end <= d
  {
    var b := h.start + |pat.prefix|;
    assert GroupAt(line, h.start, pat) == Some(h.end);
    forall k | h.start <= k < b
      ensures !IsVarDelimiter(line[k])
    {
      assert line[k] == line[h.start..b][k - h.start] == pat.prefix[k - h.start];
    }
  }

  lemma {:induction false} ScanComplete(doc: seq<string>, pat: VarPattern, line: nat, pos: nat, found: seq<string>,
                                        i: nat, g: nat, e: nat)
    requires |pat.prefix| > 0 && PrefixHasNoDelimiter(pat)
    requires line < |doc| ==> pos <= |doc[line]|
    requires i < |doc| && OccursAt(doc[i], g, e, pat) && (g == 0 || !IsNameChar(doc[i][g - 1]))
    requires line < i || (line == i && pos <= (if g == 0 then 0 else g - 1))
    ensures doc[i][g..e] in ScanFrom(doc, pat, line, pos, found)
    decreases |doc| - line, if line < |doc| then |doc[line]| - pos else 0
  {
    var st := if g == 0 then 0 else g - 1;
    match FindFrom(doc[line], pos, pat)
    case Some(h) =>
      var next := AddName(found, doc[line][h.start..h.end]);
      if line == i {
        MatchAtOccurrence(doc[i], g, e, pat);
        FindFromLeftmost(doc[line], pos, pat, st);
        if h.at == st {
          ScanKeeps(doc, pat, line, h.end, next, doc[i][g..e]);
        } else {
          HitEndsBeforeDelimiter(doc[i], h, st, pat);
          ScanComplete(doc, pat, line, h.end, next, i, g, e);
        }
      } else {
        ScanComplete(doc, pat, line, h.end, next, i, g, e);
      }
    case None =>
      if line == i {
        MatchAtOccurrence(doc[i], g, e, pat);
        FindFromLeftmost(doc[line], pos, pat, st);
        assert false;
      } else {
        ScanComplete(doc, pat, line + 1, 0, found, i, g, e);
      }
  }

  /**
   * The collected names are exactly what the pattern captures: each is an occurrence,
   * and every occurrence the search cannot step over is collected; each name once.
   */
  lemma DocumentNamesExact(doc: seq<string>, pat: VarPattern, x: string)
    requires |pat.prefix| > 0
    ensures NoDuplicates(DocumentNames(doc, pat))
    ensures x in DocumentNames(doc, pat) ==> OccursIn(doc, x, pat)
    ensures PrefixHasNoDelimiter(pat) && OccursSeparatedIn(doc, x, pat) ==> x in DocumentNames(doc, pat)
  {
    ScanNoDuplicates(doc, pat, 0, 0, []);
    if x in DocumentNames(doc, pat) {
      ScanSound(doc, pat, 0, 0, [], x);
    }
    if PrefixHasNoDelimiter(pat) && OccursSeparatedIn(doc, x, pat) {
      var i: nat, g: nat, e: nat :| i < |doc| && OccursAt(doc[i], g, e, pat) && x == doc[i][g..e] &&
        (g == 0 || !IsNameChar(doc[i][g - 1]));
      if 0 < i {
        ScanComplete(doc, pat, 0, 0, [], i, g, e);
      } else {
        ScanComplete(doc, pat, 0, 0, [], i, g, e);
      }
    }
  }

  /**
   * Each name starts with the prefix, continues with name characters only, and has a
   * name-start character right after the prefix when the pattern asks for one.
   */
  lemma OccurrenceShape(doc: seq<string>, x: string, pat: VarPattern)
    requires OccursIn(doc, x, pat)
    ensures StartsWith(x, pat.prefix)
    ensures forall k :: |pat.prefix| <= k < |x| ==> IsNameChar(x[k])
    ensures pat.needsNameStart ==> |x| > |pat.prefix| && IsNameStart(x[|pat.prefix|])
  {
    var i: nat, g: nat, e: nat :| i < |doc| && OccursAt(doc[i], g, e, pat) && x == doc[i][g..e];
    var line := doc[i];
    assert x[..|pat.prefix|] == line[g..g + |pat.prefix|];
    forall k | |pat.prefix| <= k < |x| ensures IsNameChar(x[k]) {
      assert x[k] == line[g + k];
    }
    if pat.needsNameStart {
      assert x[|pat.prefix|] == line[g + |pat.prefix|];
    }
  }
}
