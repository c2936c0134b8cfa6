/**
 * Two editor commands: the parse of the jump-to-line dialog's answer
 * (edit/codemirror-default.js:197-214) and `isBlank` (edit/codemirror-default.js:151-161).
 */
module EditorCommands {
  import opened Wrappers
  import opened Chars

  // ---------------------------------------------------------------------------
  // jumpToLine: /^\s*(\d+)(?:\s*:\s*(\d+))?\s*$/
  // ---------------------------------------------------------------------------

  predicate AllDigits(s: string) {
    forall i :: 0 <= i < |s| ==> IsDigit(s[i])
  }

  /** The number a run of decimal digits denotes (`m[1] - 1` converts it). */
  function DigitsValue(s: string): nat
    requires AllDigits(s)
  {
    if s == [] then 0 else DigitsValue(s[..|s| - 1]) * 10 + (s[|s| - 1] as int - '0' as int)
  }

  /** `String(n)`: the decimal digits of `n`, without leading zeros. */
  function Decimal(n: nat): (s: string)
    ensures s != [] && AllDigits(s)
    ensures |s| > 1 ==> s[0] != '0'
  {
    if n < 10 then [('0' as int + n) as char] else Decimal(n / 10) + [('0' as int + n % 10) as char]
  }

  /** The line and, when `:m` was given, the column typed into the dialog. */
  datatype JumpTarget = JumpTarget(line: nat, col: Option<nat>)

  /** `str.match(...)`: the captured numbers, or `None` when the answer does not match. */
  function ParseJump(s: string): (r: Option<JumpTarget>)
    ensures r.Some? ==> forall k :: 0 <= k < |s| ==> IsSpace(s[k]) || IsDigit(s[k]) || s[k] == ':'
    ensures Blanks(s, 0, |s|) ==> r.None?
  {
    var a := BlankEnd(s, 0);
    var b := DigitEnd(s, a);
    if a == b then None else ParseRest(s, DigitsValue(s[a..b]), BlankEnd(s, b))
  }

  /** What follows the line number `n` and the blanks after it, from `c` on. */
  function ParseRest(s: string, n: nat, c: nat): (r: Option<JumpTarget>)
    requires c <= |s|
    ensures r.Some? ==> r.value.line == n && (r.value.col.None? <==> c == |s|)
    ensures r.Some? ==> forall k :: c <= k < |s| ==> IsSpace(s[k]) || IsDigit(s[k]) || s[k] == ':'
  {
    if c == |s| then Some(JumpTarget(n, None))
    else if s[c] != ':' then None
    else
      var col := ParseColumn(s, c + 1);
      if col.Some? then Some(JumpTarget(n, col)) else None
  }

  /** `\s*(\d+)\s*$` from `i`, which follows the colon. */
  function ParseColumn(s: string, i: nat): (r: Option<nat>)
    requires i <= |s|
    ensures r.Some? ==> exists k :: i <= k < |s| && IsDigit(s[k])
    ensures r.Some? ==> forall k :: i <= k < |s| ==> IsSpace(s[k]) || IsDigit(s[k])
  {
    var d := BlankEnd(s, i);
    var e := DigitEnd(s, d);
    if d < e && BlankEnd(s, e) == |s| then Some(DigitsValue(s[d..e])) else None
  }

  /**
   * `cm.setCursor(m[1] - 1, m[2] ? m[2] - 1 : cur.ch)`, or the cursor left where it was;
   * the editor clamps what it is given.
   */
  function JumpCursor(answer: string, curLine: nat, curCh: nat): (p: (int, int))
    ensures ParseJump(answer).None? ==> p == (curLine, curCh)
    ensures ParseJump(answer).Some? ==> p.0 + 1 == ParseJump(answer).value.line
    ensures ParseJump(answer).Some? && ParseJump(answer).value.col.None? ==> p.1 == curCh
    ensures ParseJump(answer).Some? && ParseJump(answer).value.col.Some? ==>
      p.1 == ParseJump(answer).value.col.value - 1
  {
    match ParseJump(answer)
    case None => (curLine, curCh)
    case Some(t) => (t.line - 1, match t.col case None => curCh case Some(m) => m - 1)
  }

  /** `s[i..j]` is all blanks. */
  predicate Blanks(s: string, i: nat, j: nat)
    requires i <= j <= |s|
  {
    forall k {:trigger IsSpace(s[k])} :: i <= k < j ==> IsSpace(s[k])
  }

  /** `s[i..j]` is a non-empty run of digits. */
  predicate Digits(s: string, i: nat, j: nat)
    requires i <= j <= |s|
  {
    i < j && AllDigits(s[i..j])
  }

  /** The end of `\s*` from `i`. */
  function BlankEnd(s: string, i: nat): (e: nat)
    requires i <= |s|
    ensures i <= e <= |s| && Blanks(s, i, e) && (e == |s| || !IsSpace(s[e]))
    decreases |s| - i
  {
    if i < |s| && IsSpace(s[i]) then BlankEnd(s, i + 1) else i
  }

  /** The end of `\d*` from `i`. */
  function DigitEnd(s: string, i: nat): (e: nat)
    requires i <= |s|
    ensures i <= e <= |s| && AllDigits(s[i..e]) && (e == |s| || !IsDigit(s[e]))
    decreases |s| - i
  {
    if i < |s| && IsDigit(s[i]) then DigitEnd(s, i + 1) else i
  }

  /** No character is both a blank and a digit. */
  lemma DigitIsNotSpace(c: char)
    ensures IsDigit(c) ==> !IsSpace(c)
  {
  }

  /** A run of blanks that begins at `i` and ends in front of `j` ends at `j`. */
  lemma {:induction false} BlankEndIs(s: string, i: nat, j: nat)
    requires i <= j <= |s| && Blanks(s, i, j) && (j == |s| || !IsSpace(s[j]))
    ensures BlankEnd(s, i) == j
    decreases j - i
  {
    if i < j {
      BlankEndIs(s, i + 1, j);
    }
  }

  /** A run of digits that begins at `i` and ends in front of `j` ends at `j`. */
  lemma {:induction false} DigitEndIs(s: string, i: nat, j: nat)
    requires i <= j <= |s| && AllDigits(s[i..j]) && (j == |s| || !IsDigit(s[j]))
    ensures DigitEnd(s, i) == j
    decreases j - i
  {
    if i < j {
      assert s[i..j][0] == s[i];
      assert s[i + 1..j] == s[i..j][1..];
      DigitEndIs(s, i + 1, j);
    }
  }

  /**
   * The answers read as a line alone: blanks up to `a`, digits up to `b`, blanks to
   * the end.
   */
  lemma ParseLineOnly(s: string, a: nat, b: nat)
    requires a <= b <= |s|
    requires Blanks(s, 0, a) && Digits(s, a, b) && Blanks(s, b, |s|)
    ensures ParseJump(s) == Some(JumpTarget(DigitsValue(s[a..b]), None))
  {
    if b < |s| {
      DigitIsNotSpace(s[b]);
    }
    LineIs(s, a, b, |s|);
  }

  /**
   * The answers read as a line and a column: blanks up to `a`, digits up to `b`,
   * blanks up to `c`, a colon, blanks up to `d`, digits up to `e`, blanks to the end.
   */
  lemma ParseLineAndColumn(s: string, a: nat, b: nat, c: nat, d: nat, e: nat)
    requires a <= b <= c < d <= e <= |s| && s[c] == ':'
    requires Blanks(s, 0, a) && Digits(s, a, b) && Blanks(s, b, c)
    requires Blanks(s, c + 1, d) && Digits(s, d, e) && Blanks(s, e, |s|)
    ensures ParseJump(s) == Some(JumpTarget(DigitsValue(s[a..b]), Some(DigitsValue(s[d..e]))))
  {
    if b < c {
      DigitIsNotSpace(s[b]);
    }
    ColumnIs(s, c + 1, d, e);
    LineWithColumn(s, a, b, c, DigitsValue(s[d..e]));
  }

  /** Blanks up to `a`, digits up to `b` and blanks up to `c` leave `ParseRest` at `c`. */
  lemma LineIs(s: string, a: nat, b: nat, c: nat)
    requires a <= b <= c <= |s| && (b == |s| || !IsDigit(s[b])) && (c == |s| || !IsSpace(s[c]))
    requires Blanks(s, 0, a) && Digits(s, a, b) && Blanks(s, b, c)
    ensures ParseJump(s) == ParseRest(s, DigitsValue(s[a..b]), c)
  {
    assert s[a..b][0] == s[a];
    DigitIsNotSpace(s[a]);
    BlankEndIs(s, 0, a);
    DigitEndIs(s, a, b);
    BlankEndIs(s, b, c);
  }

  /** The column after the colon: blanks up to `d`, digits up to `e`, blanks to the end. */
  lemma ColumnIs(s: string, i: nat, d: nat, e: nat)
    requires i <= d <= e <= |s|
    requires Blanks(s, i, d) && Digits(s, d, e) && Blanks(s, e, |s|)
    ensures ParseColumn(s, i) == Some(DigitsValue(s[d..e]))
  {
    assert s[d..e][0] == s[d];
    DigitIsNotSpace(s[d]);
    if e < |s| {
      DigitIsNotSpace(s[e]);
    }
    BlankEndIs(s, i, d);
    DigitEndIs(s, d, e);
    BlankEndIs(s, e, |s|);
  }

  /** The line as in `LineIs`, then a colon and an accepted column `m`. */
  lemma LineWithColumn(s: string, a: nat, b: nat, c: nat, m: nat)
    requires a <= b <= c < |s| && (b == |s| || !IsDigit(s[b])) && s[c] == ':'
    requires Blanks(s, 0, a) && Digits(s, a, b) && Blanks(s, b, c)
    requires ParseColumn(s, c + 1) == Some(m)
    ensures ParseJump(s) == Some(JumpTarget(DigitsValue(s[a..b]), Some(m)))
  {
    LineIs(s, a, b, c);
  }

  /** Conversely, every answer that is read has one of those two shapes. */
  lemma ParseShape(s: string) returns (a: nat, b: nat, c: nat, d: nat, e: nat)
    requires ParseJump(s).Some?
    ensures a <= b <= c <= |s| && Blanks(s, 0, a) && Digits(s, a, b) && Blanks(s, b, c)
    ensures ParseJump(s).value.line == DigitsValue(s[a..b])
    ensures ParseJump(s).value.col.None? ==> c == |s|
    ensures ParseJump(s).value.col.Some? ==>
      c < d <= e <= |s| && s[c] == ':' && Blanks(s, c + 1, d) && Digits(s, d, e) && Blanks(s, e, |s|) &&
      ParseJump(s).value.col == Some(DigitsValue(s[d..e]))
  {
    a := BlankEnd(s, 0);
    b := DigitEnd(s, a);
    c := BlankEnd(s, b);
    var n := DigitsValue(s[a..b]);
    assert a < b && ParseJump(s) == ParseRest(s, n, c);
    RestShape(s, n, c);
    if ParseRest(s, n, c).value.col.Some? {
      d, e := ColumnShape(s, c + 1);
    } else {
      d, e := c, c;
    }
  }

  /** What an accepted rest consists of: the end, or a colon and an accepted column. */
  lemma RestShape(s: string, n: nat, c: nat)
    requires c <= |s| && ParseRest(s, n, c).Some?
    ensures ParseRest(s, n, c).value.line == n
    ensures ParseRest(s, n, c).value.col.None? ==> c == |s|
    ensures ParseRest(s, n, c).value.col.Some? ==>
      c < |s| && s[c] == ':' && ParseColumn(s, c + 1).Some? && ParseRest(s, n, c).value.col == ParseColumn(s, c + 1)
  {
  }

  /** An accepted column has the shape `ColumnIs` reads. */
  lemma ColumnShape(s: string, i: nat) returns (d: nat, e: nat)
    requires i <= |s| && ParseColumn(s, i).Some?
    ensures i <= d <= e <= |s| && Blanks(s, i, d) && Digits(s, d, e) && Blanks(s, e, |s|)
    ensures ParseColumn(s, i) == Some(DigitsValue(s[d..e]))
  {
    d := BlankEnd(s, i);
    e := DigitEnd(s, d);
  }

  lemma {:induction false} DigitsValueAppend(s: string, c: char)
    requires AllDigits(s) && IsDigit(c)
    ensures AllDigits(s + [c]) && DigitsValue(s + [c]) == DigitsValue(s) * 10 + (c as int - '0' as int)
  {
    assert (s + [c])[..|s + [c]| - 1] == s;
  }

  lemma {:induction false} DecimalValue(n: nat)
    ensures DigitsValue(Decimal(n)) == n
  {
    if n < 10 {
      assert DigitsValue(Decimal(n)) == DigitsValue([]) * 10 + n;
    } else {
      DecimalValue(n / 10);
      DigitsValueAppend(Decimal(n / 10), ('0' as int + n % 10) as char);
    }
  }

  /**
   * The dialog is prefilled with `cur.line + 1`; confirmed unchanged, it moves the cursor
   * to where it already is.
   */
  lemma PrefillRoundTrip(curLine: nat, curCh: nat)
    ensures ParseJump(Decimal(curLine + 1)) == Some(JumpTarget(curLine + 1, None))
    ensures JumpCursor(Decimal(curLine + 1), curLine, curCh) == (curLine, curCh)
  {
    var s := Decimal(curLine + 1);
    DecimalValue(curLine + 1);
    assert s[0..|s|] == s;
    ParseLineOnly(s, 0, |s|);
  }

  // ---------------------------------------------------------------------------
  // isBlank
  // ---------------------------------------------------------------------------

  /**
   * `cm.isBlank()`: walks the lines and stops at the first one that is not empty
   * after `trim()`.
   */
  method IsBlank(lines: seq<string>) returns (blank: bool)
    ensures blank <==> forall i :: 0 <= i < |lines| ==> Trim(lines[i]) == []
    ensures blank <==> forall i :: 0 <= i < |lines| ==> AllSpace(lines[i])
  {
    blank := true;
    var i := 0;
    while i < |lines|
      invariant i <= |lines|
      invariant forall k :: 0 <= k < i ==> Trim(lines[k]) == [] && AllSpace(lines[k])
    {
      TrimEmpty(lines[i]);
      if lines[i] != [] && Trim(lines[i]) != [] {
        blank := false;
        return;
      }
      i := i + 1;
    }
  }
}
