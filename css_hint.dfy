/**
 * The CSS completion helper registered for the `css` and `stylus` hint types
 * (edit/codemirror-default.js:241-324).
 *
 * The calls into CodeMirror and into the editor page that the helper makes are
 * taken as inputs: the line's `styles`, the result of `getStyleAtPos`, the lines the
 * search cursor walks, the global `editor`, the fallback helper's result and the
 * parser state `getTokenAt` reports.
 */
module CssHint {
  import opened Wrappers
  import opened Chars
  import opened Sorting
  import opened Patterns
  import opened UsoVariables

  /** A cursor position `{line, ch}`; `ch` is whatever number the fallback put there. */
  datatype Pos = Pos(line: nat, ch: int)

  /** A completion result `{list, from, to}`. */
  datatype Hint = Hint(list: seq<string>, from: Pos, to: Pos)

  /**
   * One span of the line's `styles` array: the span numbered `k` ends at `styles[2k+1]`
   * and has the style `styles[2k+2]`, the empty string standing for a null style.
   */
  datatype Span = Span(end: nat, style: string)

  /**
   * What `getStyleAtPos` reports for the cursor: the style of the span holding it and
   * the number `k` of that span, so that its `index` is `2k+1`.
   */
  datatype StyleAt = StyleAt(style: string, span: nat)

  /** Everything the helper reads. */
  datatype Request = Request(
    line: nat,
    ch: nat,
    text: string,
    styles: Option<seq<Span>>,
    at: Option<StyleAt>,
    doc: seq<string>,
    editor: Editor,
    fallback: Option<Hint>,
    state: string)

  /** The cursor lies within its line and `getStyleAtPos` names a span of the line. */
  predicate WellFormed(r: Request) {
    r.ch <= |r.text| &&
    (r.at.Some? ==> r.styles.Some? && r.at.value.span < |r.styles.value|)
  }

  /** `style`, the empty string when `getStyleAtPos` gave nothing. */
  function Style(r: Request): string {
    if r.at.Some? then r.at.value.style else ""
  }

  /** `index > 2 ? styles[index - 2] : 0`: where the cursor's span starts. */
  function SpanStart(r: Request): nat
    requires WellFormed(r)
  {
    if r.at.Some? && r.at.value.span > 0 then r.styles.value[r.at.value.span - 1].end else 0
  }

  /** `styles[index]`: where the cursor's span ends (only read when there is a span). */
  function SpanEnd(r: Request): int
    requires WellFormed(r)
  {
    if r.at.Some? then r.styles.value[r.at.value.span].end else 0
  }

  /** The 4 characters of `/*[[` and of `]]*/` around a marked variable. */
  function Adjust(r: Request): nat
    requires WellFormed(r)
  {
    if CharAt(r.text, SpanStart(r)) == Some('/') then 4 else 0
  }

  function Prev(r: Request): nat
    requires WellFormed(r)
  {
    SpanStart(r) + Adjust(r)
  }

  function End(r: Request): int
    requires WellFormed(r)
  {
    SpanEnd(r) - Adjust(r)
  }

  function LeftPart(r: Request): string
    requires WellFormed(r)
  {
    Slice(r.text, Prev(r), r.ch)
  }

  predicate StartsWithDoubleDash(r: Request)
    requires WellFormed(r)
  {
    CharAt(r.text, Prev(r)) == Some('-') && CharAt(r.text, Prev(r) + 1) == Some('-')
  }

  /** The cursor follows the `(` of a `var(`. */
  predicate AfterVarParen(r: Request)
    requires WellFormed(r)
  {
    LeftPart(r) == "(" && VarKeywordAt(r.text, if Prev(r) >= 4 then Prev(r) - 4 else 0)
  }

  /** `text[ch - 1] === '!' && /i|\W|^$/i.test(text[ch] || '')`. */
  predicate ImportantGuard(text: string, ch: nat)
    requires ch <= |text|
  {
    0 < ch && text[ch - 1] == '!' &&
    (ch == |text| || LowerAscii(text[ch]) == 'i' || !IsWordChar(text[ch]))
  }

  /** The six outcomes of the helper. */
  datatype Context =
    | Fallback
    | ImportantKeyword
    | HexColor
    | CustomPropertyReference
    | PropertyNamePostColon
    | UserVariable

  /** Which branch of the helper a request takes. */
  function Classify(r: Request): (c: Context)
    requires WellFormed(r)
    ensures c == Fallback <==> r.styles.None? || StartsWith(Style(r), "comment") || StartsWith(Style(r), "string")
    ensures c == ImportantKeyword ==> ImportantGuard(r.text, r.ch)
    ensures c == HexColor ==> CharAt(r.text, SpanStart(r)) == Some('#')
    ensures c == CustomPropertyReference ==> StartsWithDoubleDash(r) || AfterVarParen(r)
    ensures c == UserVariable ==> r.editor.Editor? && Contains(Style(r), UsoVar)
  {
    if r.styles.None? then Fallback
    else if StartsWith(Style(r), "comment") || StartsWith(Style(r), "string") then Fallback
    else if ImportantGuard(r.text, r.ch) then ImportantKeyword
    else if CharAt(r.text, SpanStart(r)) == Some('#') then HexColor
    else if StartsWithDoubleDash(r) || AfterVarParen(r) then CustomPropertyReference
    else if r.editor.NoEditor? || Style(r) == "" || !Contains(Style(r), UsoVar) then PropertyNamePostColon
    else UserVariable
  }

  // ---------------------------------------------------------------------------
  // The results of the branches
  // ---------------------------------------------------------------------------

  function ImportantHint(r: Request): (h: Hint)
    requires WellFormed(r) && ImportantGuard(r.text, r.ch)
    ensures h.to.ch == r.ch + ImportantLength(r.text, r.ch)
  {
    ImportantExecIsLength(r.text, r.ch);
    Hint(["important"], Pos(r.line, r.ch), Pos(r.line, r.ch + ImportantExec(r.text, r.ch).value))
  }

  /** Where the inserted name starts: after the `(` in the `var(` case. */
  function VarFrom(r: Request): (p: nat)
    requires WellFormed(r) && (StartsWithDoubleDash(r) || AfterVarParen(r))
    ensures p <= |r.text|
    ensures !StartsWithDoubleDash(r) ==> p == r.ch
  {
    if StartsWithDoubleDash(r) then Prev(r) else Prev(r) + 1
  }

  /**
   * The custom-property names found in the document, sorted, replacing the text from
   * `VarFrom` up to the first blank, `,` or `)`.
   */
  function CustomPropertyHint(r: Request): (h: Hint)
    requires WellFormed(r) && (StartsWithDoubleDash(r) || AfterVarParen(r))
    ensures var pat := CssVarPattern(LeftPart(r));
      StrictlySorted(h.list) &&
      forall x :: x in h.list <==> x in DocumentNames(r.doc, pat)
    ensures h.from == Pos(r.line, VarFrom(r)) && h.to.line == r.line
    ensures VarFrom(r) <= h.to.ch <= |r.text|
    ensures h.to.ch < |r.text| ==> IsEndOfVarChar(r.text[h.to.ch])
    ensures forall i :: VarFrom(r) <= i < h.to.ch ==> !IsEndOfVarChar(r.text[i])
  {
    var pat := CssVarPattern(LeftPart(r));
    var names := DocumentNames(r.doc, pat);
    DocumentNamesExact(r.doc, pat, "");
    var from := VarFrom(r);
    Hint(Sort(names), Pos(r.line, from), Pos(r.line, EndOfVar(r.text, from).value))
  }

  /** `lastIndex` after assigning a number to it: negative values become 0. */
  function LastIndex(x: int): nat {
    if x < 0 then 0 else x
  }

  /**
   * The fallback's result with `": "` after every candidate and its end moved past
   * the rest of the property name and the colon.
   */
  function WithColons(h: Hint, text: string): (c: Hint)
    ensures |c.list| == |h.list| && forall i :: 0 <= i < |h.list| ==> c.list[i] == h.list[i] + ": "
    ensures c.from == h.from && c.to.line == h.to.line
    ensures c.to.ch == h.to.ch + ConsumeProp(text, LastIndex(h.to.ch))
    ensures 0 <= h.to.ch <= |text| ==> h.to.ch <= c.to.ch <= |text|
  {
    Hint(seq(|h.list|, i requires 0 <= i < |h.list| => h.list[i] + ": "), h.from,
         Pos(h.to.line, h.to.ch + ConsumeProp(text, LastIndex(h.to.ch))))
  }

  /** `keys.filter(name => name.startsWith(prefix))`. */
  function FilterPrefix(keys: seq<string>, prefix: string): (r: seq<string>)
    ensures forall x :: x in r <==> x in keys && StartsWith(x, prefix)
    ensures SubsequenceOf(r, keys)
  {
    if keys == [] then []
    else if StartsWith(keys[0], prefix) then [keys[0]] + FilterPrefix(keys[1..], prefix)
    else FilterPrefix(keys[1..], prefix)
  }

  /** `a` is `b` with some elements removed, the rest kept in order. */
  predicate SubsequenceOf(a: seq<string>, b: seq<string>) {
    a == [] || (b != [] && (if a[0] == b[0] then SubsequenceOf(a[1..], b[1..]) else SubsequenceOf(a, b[1..])))
  }

  /** The uso variables offered: the declared names that start with the typed text. */
  function UsoCandidates(vars: Option<seq<string>>, leftPart: string): seq<string> {
    match vars
    case None => []
    case Some(keys) => FilterPrefix(keys, leftPart)
  }

  /** The value the helper returns. */
  function Complete(r: Request): (o: Option<Hint>)
    requires WellFormed(r)
    ensures o.None? ==> r.fallback.None?
    ensures Classify(r) == Fallback ==> o == r.fallback
    ensures Classify(r) != Fallback && Classify(r) != PropertyNamePostColon ==>
      o.Some? && o.value.from.line == r.line && o.value.to.line == r.line
  {
    match Classify(r)
    case Fallback => r.fallback
    case ImportantKeyword => Some(ImportantHint(r))
    case HexColor => Some(Hint([], Pos(r.line, r.ch), Pos(r.line, r.ch)))
    case CustomPropertyReference => Some(CustomPropertyHint(r))
    case PropertyNamePostColon =>
      if r.fallback.Some? && (r.state == "block" || r.state == "maybeprop") then
        Some(WithColons(r.fallback.value, r.text))
      else r.fallback
    case UserVariable =>
      Some(Hint(UsoCandidates(StyleVars(r.editor), LeftPart(r)), Pos(r.line, Prev(r)), Pos(r.line, End(r))))
  }

  // ---------------------------------------------------------------------------
  // The helper as written: a loop filling a set, and a result object updated in place
  // ---------------------------------------------------------------------------

  /** The object the fallback helper returns, whose `list` and `to` lines 308-310 rewrite. */
  class HintObject {
    var list: seq<string>
    var from: Pos
    var to: Pos

    function View(): Hint
      reads this
    {
      Hint(list, from, to)
    }

    constructor (h: Hint)
      ensures View() == h
    {
      list := h.list;
      from := h.from;
      to := h.to;
    }

    /** `res.list = res.list.map(str => str + ': ')` and the move of `res.to.ch`. */
    method AppendColons(text: string)
      modifies this
      ensures View() == WithColons(old(View()), text)
    {
      var names := list;
      list := seq(|names|, i requires 0 <= i < |names| => names[i] + ": ");
      to := to.(ch := to.ch + ConsumeProp(text, LastIndex(to.ch)));
    }
  }

  /** `while (cursor.findNext()) list.add(cursor.pos.match[1])`. */
  method CollectCustomProperties(doc: seq<string>, pat: VarPattern) returns (list: seq<string>)
    requires |pat.prefix| > 0
    ensures list == DocumentNames(doc, pat)
  {
    list := [];
    for line := 0 to |doc|
      invariant ScanFrom(doc, pat, line, 0, list) == DocumentNames(doc, pat)
    {
      var pos := 0;
      ScanStep(doc, pat, line, pos, list);
      var hit := FindFrom(doc[line], pos, pat);
      while hit.Some?
        invariant pos <= |doc[line]| && hit == FindFrom(doc[line], pos, pat)
        invariant ScanFrom(doc, pat, line, pos, list) == DocumentNames(doc, pat)
        invariant hit.None? ==> ScanFrom(doc, pat, line + 1, 0, list) == DocumentNames(doc, pat)
        decreases |doc[line]| - pos
      {
        var h := hit.value;
        list := AddName(list, doc[line][h.start..h.end]);
        pos := h.end;
        ScanStep(doc, pat, line, pos, list);
        hit := FindFrom(doc[line], pos, pat);
      }
    }
  }

  /**
   * `helper(cm)`: `res` is the object the fallback helper returns (null when it
   * returns nothing), the same one `r.fallback` describes.
   */
  method Helper(r: Request, res: HintObject?) returns (out: Option<Hint>)
    requires WellFormed(r)
    requires (res != null) == r.fallback.Some?
    requires res != null ==> res.View() == r.fallback.value
    modifies res
    ensures out == Complete(r)
    ensures res != null && Classify(r) != PropertyNamePostColon ==> res.View() == old(res.View())
    ensures res != null && Classify(r) == PropertyNamePostColon ==> out == Some(res.View())
  {
    var text := r.text;
    var pos := Pos(r.line, r.ch);
    if r.styles.None? {
      assert Classify(r) == Fallback;
      return r.fallback;
    }
    var styles := r.styles.value;
    var style := if r.at.Some? then r.at.value.style else "";
    assert style == Style(r);
    if style != "" && (StartsWith(style, "comment") || StartsWith(style, "string")) {
      assert Classify(r) == Fallback;
      return r.fallback;
    }
    assert Classify(r) != Fallback;

    if CharAt(text, r.ch - 1) == Some('!') &&
       (r.ch == |text| || LowerAscii(text[r.ch]) == 'i' || !IsWordChar(text[r.ch])) {
      assert Classify(r) == ImportantKeyword;
      ImportantExecIsLength(text, r.ch);
      var n := ImportantExec(text, r.ch).value;
      return Some(Hint(["important"], pos, Pos(r.line, r.ch + n)));
    }
    assert !ImportantGuard(text, r.ch);

    var prev: nat := if r.at.Some? && r.at.value.span > 0 then styles[r.at.value.span - 1].end else 0;
    var end: int := if r.at.Some? then styles[r.at.value.span].end else 0;
    assert prev == SpanStart(r) && end == SpanEnd(r);

    if CharAt(text, prev) == Some('#') {
      assert Classify(r) == HexColor;
      return Some(Hint([], pos, pos));
    }

    var adjust := if CharAt(text, prev) == Some('/') then 4 else 0;
    prev := prev + adjust;
    end := end - adjust;
    var leftPart := Slice(text, prev, r.ch);
    assert prev == Prev(r) && end == End(r) && leftPart == LeftPart(r);

    assert Classify(r) in {CustomPropertyReference, PropertyNamePostColon, UserVariable};
    out := NameBranches(r, res, prev, end, leftPart, style);
  }

  /** Lines 276-323: the custom property, property name and usercss variable cases. */
  method NameBranches(r: Request, res: HintObject?, prev: nat, end: int, leftPart: string, style: string)
    returns (out: Option<Hint>)
    requires WellFormed(r) && Classify(r) in {CustomPropertyReference, PropertyNamePostColon, UserVariable}
    requires prev == Prev(r) && end == End(r) && leftPart == LeftPart(r) && style == Style(r)
    requires (res != null) == r.fallback.Some?
    requires res != null ==> res.View() == r.fallback.value
    modifies res
    ensures out == Complete(r)
    ensures res != null && Classify(r) != PropertyNamePostColon ==> res.View() == old(res.View())
    ensures res != null && Classify(r) == PropertyNamePostColon ==> out == Some(res.View())
  {
    var text := r.text;
    var startsWithDoubleDash := CharAt(text, prev) == Some('-') && CharAt(text, prev + 1) == Some('-');
    if startsWithDoubleDash ||
       (leftPart == "(" && VarKeywordAt(text, if prev >= 4 then prev - 4 else 0)) {
      assert Classify(r) == CustomPropertyReference;
      out := CustomPropertyBranch(r, prev, leftPart, startsWithDoubleDash);
      return;
    }
    assert Classify(r) == PropertyNamePostColon || Classify(r) == UserVariable;

    if r.editor.NoEditor? || style == "" || !Contains(style, UsoVar) {
      assert Classify(r) == PropertyNamePostColon;
      if res != null && (r.state == "block" || r.state == "maybeprop") {
        res.AppendColons(text);
      }
      if res == null {
        return None;
      }
      return Some(res.View());
    }

    assert Classify(r) == UserVariable;
    var vars := StyleVars(r.editor);
    var list := if vars.Some? then FilterPrefix(vars.value, leftPart) else [];
    return Some(Hint(list, Pos(r.line, prev), Pos(r.line, end)));
  }

  /** Lines 279-299: the scan, the move past `(` and the search for the end of the name. */
  method CustomPropertyBranch(r: Request, prev: nat, leftPart: string, startsWithDoubleDash: bool)
    returns (out: Option<Hint>)
    requires WellFormed(r) && Classify(r) == CustomPropertyReference
    requires prev == Prev(r) && leftPart == LeftPart(r) && startsWithDoubleDash == StartsWithDoubleDash(r)
    ensures out == Some(CustomPropertyHint(r))
  {
    var pat := CssVarPattern(leftPart);
    var list := CollectCustomProperties(r.doc, pat);
    DocumentNamesExact(r.doc, pat, "");
    var from := prev;
    if !startsWithDoubleDash {
      from := from + 1;
    }
    assert from == VarFrom(r);
    var end := EndOfVar(r.text, from).value;
    return Some(Hint(Sort(list), Pos(r.line, from), Pos(r.line, end)));
  }

  // ---------------------------------------------------------------------------
  // Properties of the branches
  // ---------------------------------------------------------------------------

  /** The fallback's own result comes back unchanged where the line has no styles or the cursor sits in a comment or string. */
  lemma EarlyExits(r: Request)
    requires WellFormed(r)
    requires r.styles.None? || StartsWith(Style(r), "comment") || StartsWith(Style(r), "string")
    ensures Complete(r) == r.fallback
  {
  }

  /**
   * After `!`, and only there, the result is `important` inserted at the cursor,
   * replacing the typed word when it prefixes "important" (at most 9 characters).
   */
  lemma ImportantCompletion(r: Request)
    requires WellFormed(r) && r.styles.Some?
    requires !StartsWith(Style(r), "comment") && !StartsWith(Style(r), "string")
    ensures Classify(r) == ImportantKeyword <==> ImportantGuard(r.text, r.ch)
    ensures ImportantGuard(r.text, r.ch) ==>
      Complete(r) == Some(Hint(["important"], Pos(r.line, r.ch), Pos(r.line, r.ch + ImportantLength(r.text, r.ch)))) &&
      r.ch + ImportantLength(r.text, r.ch) <= |r.text| &&
      ImportantLength(r.text, r.ch) <= |Important|
  {
  }

  /** A span starting with `#` gets an empty list at the cursor. */
  lemma HexColorCompletion(r: Request)
    requires WellFormed(r) && r.styles.Some?
    requires !StartsWith(Style(r), "comment") && !StartsWith(Style(r), "string")
    requires !ImportantGuard(r.text, r.ch)
    ensures Classify(r) == HexColor <==> CharAt(r.text, SpanStart(r)) == Some('#')
    ensures CharAt(r.text, SpanStart(r)) == Some('#') ==>
      Complete(r) == Some(Hint([], Pos(r.line, r.ch), Pos(r.line, r.ch)))
  {
  }

  /**
   * Past the first four tests, the three name branches are tried in source order: a
   * `--` or `var(` before the cursor wins, then a missing editor or a style without
   * `uso-variable` sends the request to the property-name branch, and the variable
   * branch takes the rest.
   */
  lemma NameBranchOrder(r: Request)
    requires WellFormed(r) && r.styles.Some?
    requires !StartsWith(Style(r), "comment") && !StartsWith(Style(r), "string")
    requires !ImportantGuard(r.text, r.ch) && CharAt(r.text, SpanStart(r)) != Some('#')
    ensures Classify(r) == CustomPropertyReference <==> StartsWithDoubleDash(r) || AfterVarParen(r)
    ensures Classify(r) == PropertyNamePostColon <==>
      !StartsWithDoubleDash(r) && !AfterVarParen(r) &&
      (r.editor.NoEditor? || Style(r) == "" || !Contains(Style(r), UsoVar))
    ensures Classify(r) == UserVariable <==>
      !StartsWithDoubleDash(r) && !AfterVarParen(r) &&
      r.editor.Editor? && Style(r) != "" && Contains(Style(r), UsoVar)
  {
  }

  /** When `leftPart` does not start with `--`, it has at most two characters. */
  lemma ShortLeftPart(r: Request)
    requires WellFormed(r) && (StartsWithDoubleDash(r) || AfterVarParen(r))
    ensures !StartsWith(LeftPart(r), "--") ==> |LeftPart(r)| <= 2
  {
    if StartsWithDoubleDash(r) && Prev(r) + 2 <= r.ch {
      assert LeftPart(r) == r.text[Prev(r)..r.ch];
      assert LeftPart(r)[..2] == "--";
    }
  }

  /**
   * The custom-property branch offers each name the document defines or uses once, in
   * sorted order; every name has the shape the pattern asks for and comes from a
   * place in the document after line start or a delimiter; and every name standing
   * after line start or a delimiter that is not a name character is offered. The
   * range runs from the typed `--` (from the cursor, after `var(`) to the first blank,
   * `,` or `)`.
   */
  lemma CustomPropertyCompletion(r: Request, x: string)
    requires WellFormed(r) && Classify(r) == CustomPropertyReference
    ensures var pat := CssVarPattern(LeftPart(r));
      Complete(r).Some? &&
      var h := Complete(r).value;
      StrictlySorted(h.list) && NoDuplicates(h.list) &&
      (x in h.list ==>
        OccursIn(r.doc, x, pat) &&
        (StartsWith(LeftPart(r), "--") ==> StartsWith(x, LeftPart(r))) &&
        (!StartsWith(LeftPart(r), "--") ==> |x| > 2 && x[..2] == "--" && IsNameStart(x[2])) &&
        (forall k :: |pat.prefix| <= k < |x| ==> IsNameChar(x[k]))) &&
      (PrefixHasNoDelimiter(pat) && OccursSeparatedIn(r.doc, x, pat) ==> x in h.list)
    ensures var h := Complete(r).value;
      h.from == Pos(r.line, if StartsWithDoubleDash(r) then Prev(r) else Prev(r) + 1) &&
      (!StartsWithDoubleDash(r) ==> h.from.ch == r.ch) &&
      h.to.line == r.line && h.from.ch <= h.to.ch <= |r.text| &&
      (h.to.ch < |r.text| ==> IsEndOfVarChar(r.text[h.to.ch])) &&
      (forall i :: h.from.ch <= i < h.to.ch ==> !IsEndOfVarChar(r.text[i]))
  {
    var pat := CssVarPattern(LeftPart(r));
    var h := Complete(r).value;
    assert h == CustomPropertyHint(r);
    SortedHasNoDuplicates(h.list);
    DocumentNamesExact(r.doc, pat, x);
    if x in h.list {
      OccurrenceShape(r.doc, x, pat);
      ShortLeftPart(r);
      if !StartsWith(LeftPart(r), "--") {
        assert pat.prefix == "--" && pat.needsNameStart;
        assert x[..2] == "--";
      }
    }
  }

  /**
   * The fallback's result after a property name: with the parser in a block, every
   * candidate gets `": "`, count, order and start stay, and the end moves past the
   * rest of the name and the colon without leaving the line; in other states the
   * result is passed on untouched.
   */
  lemma PostColonCompletion(r: Request)
    requires WellFormed(r) && Classify(r) == PropertyNamePostColon
    ensures r.fallback.None? ==> Complete(r) == None
    ensures r.fallback.Some? && r.state != "block" && r.state != "maybeprop" ==> Complete(r) == r.fallback
    ensures r.fallback.Some? && (r.state == "block" || r.state == "maybeprop") ==>
      var h := r.fallback.value;
      Complete(r).Some? &&
      var c := Complete(r).value;
      |c.list| == |h.list| && (forall i :: 0 <= i < |h.list| ==> c.list[i] == h.list[i] + ": ") &&
      c.from == h.from && c.to.line == h.to.line &&
      c.to.ch == h.to.ch + ConsumeProp(r.text, LastIndex(h.to.ch)) &&
      (0 <= h.to.ch <= |r.text| ==> h.to.ch <= c.to.ch <= |r.text|)
  {
  }

  /**
   * Inside a uso-variable span, with an editor present, the candidates are exactly the
   * declared names that start with the typed text, in the order of `vars` (`Object.keys`
   * order), and the range is the span with the `/*[[` and `]]*/` wrappers cut off.
   */
  lemma UserVariableCompletion(r: Request, x: string)
    requires WellFormed(r) && Classify(r) == UserVariable
    ensures r.editor.Editor? && Contains(Style(r), UsoVar)
    ensures Complete(r).Some?
    ensures var h := Complete(r).value;
      (x in h.list <==> StyleVars(r.editor).Some? && x in StyleVars(r.editor).value && StartsWith(x, LeftPart(r))) &&
      (StyleVars(r.editor).Some? ==> SubsequenceOf(h.list, StyleVars(r.editor).value)) &&
      h.from == Pos(r.line, SpanStart(r) + Adjust(r)) && h.to == Pos(r.line, SpanEnd(r) - Adjust(r)) &&
      (Adjust(r) == 4 <==> CharAt(r.text, SpanStart(r)) == Some('/'))
  {
  }

  /**
   * A span the comment hook restyled takes the uso-variable branch once an editor is
   * present, unless one of the three checks before it fires.
   */
  lemma MarkedCommentReachesUsoBranch(r: Request)
    requires WellFormed(r) && r.styles.Some? && r.editor.Editor?
    requires Style(r) == UsoValidVar || Style(r) == UsoInvalidVar
    ensures Classify(r) != Fallback && Classify(r) != PropertyNamePostColon
    ensures (!ImportantGuard(r.text, r.ch) && CharAt(r.text, SpanStart(r)) != Some('#') &&
             !StartsWithDoubleDash(r) && !AfterVarParen(r)) ==> Classify(r) == UserVariable
  {
    MarkedStylesAreUsoVariables(Style(r));
  }

  /**
   * A declared name offered in the uso-variable branch is one the comment hook marks
   * valid, unless it ends in `-rgb`: the hook drops that suffix before the lookup.
   */
  lemma OfferedVariablesAreValid(r: Request, x: string)
    requires WellFormed(r) && Classify(r) == UserVariable
    requires x in Complete(r).value.list && !EndsWith(x, "-rgb")
    ensures IsDeclared(r.editor, x)
  {
    UserVariableCompletion(r, x);
  }

  // ---------------------------------------------------------------------------
  // Two places where the helper as written throws
  // ---------------------------------------------------------------------------

  /** A value, or the `TypeError` the expression throws. */
  datatype Outcome<T> = Returns(value: T) | Throws

  /** `editor.getStyle().usercssData.vars` as written at line 316, without the `|| {}` of line 344. */
  function VarsAsWritten(editor: Editor): (o: Outcome<Option<seq<string>>>)
    requires editor.Editor?
    ensures o.Throws? <==> editor.usercssData.None?
  {
    match editor.usercssData
    case None => Throws
    case Some(d) => Returns(d.vars)
  }

  /** Lines 308-310 as written: `exec` returning null is dereferenced. */
  function WithColonsAsWritten(h: Hint, text: string): (o: Outcome<Hint>)
    ensures o.Throws? <==> ConsumePropAsWritten(text, LastIndex(h.to.ch)).None?
  {
    match ConsumePropAsWritten(text, LastIndex(h.to.ch))
    case None => Throws
    case Some(n) =>
      Returns(Hint(seq(|h.list|, i requires 0 <= i < |h.list| => h.list[i] + ": "), h.from,
                   Pos(h.to.line, h.to.ch + n)))
  }

  /** The corrected lookup agrees with the one written wherever that one returns. */
  lemma StyleVarsCorrectsLookup(editor: Editor)
    requires editor.Editor?
    ensures VarsAsWritten(editor).Returns? ==> VarsAsWritten(editor).value == StyleVars(editor)
    ensures VarsAsWritten(editor).Throws? ==> StyleVars(editor) == None
  {
  }

  /** The corrected post-processing agrees with the one written wherever that one returns. */
  lemma WithColonsCorrectsConsume(h: Hint, text: string)
    ensures WithColonsAsWritten(h, text).Returns? ==> WithColonsAsWritten(h, text).value == WithColons(h, text)
    ensures WithColonsAsWritten(h, text).Throws? ==> WithColons(h, text) == Hint(WithColons(h, text).list, h.from, h.to)
  {
  }

  /** The request of the first counterexample: the cursor after `x` in `/*[[x]]*/` of a style that is not usercss. */
  function UnmarkedStyleRequest(): Request {
    Request(0, 5, "/*[[x]]*/", Some([Span(9, UsoInvalidVar)]), Some(StyleAt(UsoInvalidVar, 0)),
            ["/*[[x]]*/"], Editor(None), None, "top")
  }

  /**
   * In an editor whose style has no `usercssData`, the comment hook still marks
   * `/*[[x]]*/` as an invalid uso variable, the helper takes the uso-variable branch
   * for it, and line 316 throws there; the corrected lookup offers nothing.
   */
  lemma UsercssDataMissingThrows()
    ensures var r := UnmarkedStyleRequest();
      WellFormed(r) && Classify(r) == UserVariable &&
      VarsAsWritten(r.editor).Throws? &&
      ClassifiedToken(["comment", "comment"], Stream(r.text, 0, 9), r.editor) == [UsoInvalidVar, "comment"] &&
      Complete(r) == Some(Hint([], Pos(0, 4), Pos(0, 5)))
  {
    var r := UnmarkedStyleRequest();
    UnmarkedStyleClassified();
    assert StyleVars(r.editor) == None;
    assert Complete(r) == Some(Hint([], Pos(0, Prev(r)), Pos(0, End(r))));
    assert !IsMarked(Stream(r.text, 0, 9)) || !IsDeclared(r.editor, MarkedName(Stream(r.text, 0, 9)));
  }

  /** The request of the example above reaches the usercss variable case, with `x` typed. */
  lemma UnmarkedStyleClassified()
    ensures var r := UnmarkedStyleRequest();
      WellFormed(r) && Classify(r) == UserVariable && Prev(r) == 4 && End(r) == 5 && LeftPart(r) == "x"
  {
    var r := UnmarkedStyleRequest();
    MarkedStylesAreUsoVariables(UsoInvalidVar);
    assert CharAt(r.text, 0) == Some('/');
    assert LeftPart(r) == "x";
  }

  /** The request of the second counterexample: the cursor after `colo` in `a { colo }`. */
  function MidLineRequest(): Request {
    Request(0, 8, "a { colo }", Some([Span(10, "property")]), Some(StyleAt("property", 0)),
            ["a { colo }"], NoEditor, Some(Hint(["color"], Pos(0, 4), Pos(0, 8))), "block")
  }

  /**
   * A property name completed in the middle of a line with no colon after it: the
   * sticky match fails, line 310 throws, and the corrected version appends `": "`
   * and leaves the end where it was.
   */
  lemma ConsumeMidLineThrows()
    ensures var r := MidLineRequest();
      WellFormed(r) && Classify(r) == PropertyNamePostColon &&
      WithColonsAsWritten(r.fallback.value, r.text).Throws? &&
      Complete(r) == Some(Hint(["color: "], Pos(0, 4), Pos(0, 8)))
  {
    var r := MidLineRequest();
    var h := Hint(["color"], Pos(0, 4), Pos(0, 8));
    var text := "a { colo }";
    assert r.fallback == Some(h) && r.text == text && r.state == "block";
    ConsumePropFailsMidLine();
    assert LastIndex(h.to.ch) == 8;
    MidLineClassified();
    assert Complete(r) == Some(WithColons(h, text));
    var c := WithColons(h, text);
    assert c.to == Pos(0, 8);
    assert "color" + ": " == "color: ";
    assert |c.list| == 1 && c.list[0] == "color: ";
    assert c.list == ["color: "];
  }

  /** The request of the example above reaches the property name case. */
  lemma MidLineClassified()
    ensures WellFormed(MidLineRequest()) && Classify(MidLineRequest()) == PropertyNamePostColon
  {
    var r := MidLineRequest();
    assert WellFormed(r);
    assert SpanStart(r) == 0 && r.text[0] == 'a' && r.text[1] == ' ';
    assert Prev(r) == 0;
    assert !StartsWith(Style(r), "comment") && !StartsWith(Style(r), "string") by {
      assert Style(r)[0] == 'p';
    }
    assert !ImportantGuard(r.text, r.ch) by {
      assert r.text[7] == 'o';
    }
    assert !StartsWithDoubleDash(r);
    assert !AfterVarParen(r) by {
      assert |LeftPart(r)| == 8;
    }
  }
}
