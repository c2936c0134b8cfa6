/**
 * The comment hook that restyles `/*[[name]]*/` comments as usercss variables
 * (edit/codemirror-default.js:232-234 and 332-353).
 */
module UsoVariables {
  import opened Wrappers
  import opened Chars

  const UsoVar := "uso-variable"
  const UsoValidVar := "variable-3 " + UsoVar
  const UsoInvalidVar := "error " + UsoVar

  /** `usercssData` of the edited style: `vars` holds the keys of its `vars` object in `Object.keys` order. */
  datatype UsercssData = UsercssData(vars: Option<seq<string>>)

  /**
   * The global `editor`: `NoEditor` when it is undefined; otherwise the one thing read
   * from it, the `usercssData` of `editor.getStyle()`.
   */
  datatype Editor = NoEditor | Editor(usercssData: Option<UsercssData>)

  /** The variables a style declares: `typeof editor !== 'undefined' && (editor.getStyle().usercssData || {}).vars`. */
  function StyleVars(editor: Editor): (r: Option<seq<string>>)
    ensures r.Some? <==> editor.Editor? && editor.usercssData.Some? && editor.usercssData.value.vars.Some?
  {
    match editor
    case NoEditor => None
    case Editor(data) =>
      match data
      case None => None
      case Some(d) => d.vars
  }

  /** What the stream covers after the base comment hook: the line, and the token's start and end. */
  datatype Stream = Stream(line: string, start: nat, pos: nat)

  /**
   * `[[` at `start+2` and `start+3`, `]]` at `pos-4` and `pos-3`; the two characters
   * around them (`/*` and `*/`) are not looked at.
   */
  predicate IsMarked(s: Stream)
    ensures IsMarked(s) ==> s.start + 4 <= |s.line| && 4 <= s.pos <= |s.line| + 2
    ensures IsMarked(s) ==> s.line[s.start + 2] == '[' && s.line[s.start + 3] == '[' &&
                            s.line[s.pos - 4] == ']' && s.line[s.pos - 3] == ']'
  {
    CharAt(s.line, s.start + 2) == Some('[') && CharAt(s.line, s.start + 3) == Some('[') &&
    CharAt(s.line, s.pos - 3) == Some(']') && CharAt(s.line, s.pos - 4) == Some(']')
  }

  /** `string.slice(start + 4, pos - 4)`. */
  function MarkedName(s: Stream): (r: string)
    requires IsMarked(s)
    ensures s.start + 4 <= s.pos - 4 ==> s.line[s.start + 2..s.pos - 2] == "[[" + r + "]]"
    ensures s.pos - 4 <= s.start + 4 ==> r == []
  {
    Slice(s.line, s.start + 4, s.pos - 4)
  }

  /** One trailing `-rgb` is dropped from the name in the comment, never from the declared names. */
  function LookupName(name: string): (r: string)
    ensures EndsWith(name, "-rgb") ==> name == r + "-rgb"
    ensures !EndsWith(name, "-rgb") ==> r == name
  {
    if EndsWith(name, "-rgb") then name[..|name| - 4] else name
  }

  /** `vars && Object.hasOwnProperty.call(vars, lookup name)`. */
  predicate IsDeclared(editor: Editor, name: string) {
    StyleVars(editor).Some? && LookupName(name) in StyleVars(editor).value
  }

  /**
   * The token `[style, type]` the hook returns for the base hook's `token`: only a
   * marked comment changes, and only its style.
   */
  function ClassifiedToken(token: seq<string>, s: Stream, editor: Editor): (r: seq<string>)
    requires |token| == 2
    ensures |r| == 2 && r[1] == token[1]
    ensures token[1] != "comment" || !IsMarked(s) ==> r == token
    ensures token[1] == "comment" && IsMarked(s) ==>
      (r[0] == UsoValidVar <==> IsDeclared(editor, MarkedName(s))) &&
      (r[0] == UsoInvalidVar <==> !IsDeclared(editor, MarkedName(s)))
  {
    if token[1] != "comment" || !IsMarked(s) then token
    else [if IsDeclared(editor, MarkedName(s)) then UsoValidVar else UsoInvalidVar, token[1]]
  }

  /**
   * `tokenizeUsoVariables`: `token` is what the base comment hook returned, `null`
   * standing for its `false`; the style slot is overwritten in place.
   */
  method TokenizeUsoVariables(token: array?<string>, s: Stream, editor: Editor) returns (r: array?<string>)
    requires token != null ==> token.Length == 2
    modifies token
    ensures r == token
    ensures token != null ==> token[..] == ClassifiedToken(old(token[..]), s, editor)
  {
    r := token;
    if token == null || token[1] != "comment" {
      return;
    }
    ghost var before := token[..];
    if CharAt(s.line, s.start + 2) == Some('[') && CharAt(s.line, s.start + 3) == Some('[') &&
       CharAt(s.line, s.pos - 3) == Some(']') && CharAt(s.line, s.pos - 4) == Some(']') {
      assert IsMarked(s);
      var vars := StyleVars(editor);
      var name := Slice(s.line, s.start + 4, s.pos - 4);
      assert name == MarkedName(s);
      if vars.Some? && LookupName(name) in vars.value {
        token[0] := UsoValidVar;
        assert IsDeclared(editor, MarkedName(s));
      } else {
        token[0] := UsoInvalidVar;
        assert !IsDeclared(editor, MarkedName(s));
      }
      assert token[..] == [token[0], before[1]];
    } else {
      assert !IsMarked(s);
    }
  }

  /**
   * The `-rgb` rule goes one way: `x-rgb` is valid against `{x}`, but `x` is not valid
   * against `{x-rgb}` (for a name `x` that does not itself end in `-rgb`).
   */
  lemma RgbSuffixOneWay(x: string)
    requires !EndsWith(x, "-rgb")
    ensures IsDeclared(Editor(Some(UsercssData(Some([x])))), x + "-rgb")
    ensures !IsDeclared(Editor(Some(UsercssData(Some([x + "-rgb"])))), x)
  {
    var y := x + "-rgb";
    assert y[|y| - 4..] == "-rgb";
    assert y[..|y| - 4] == x;
  }

  lemma {:induction false} ContainsSuffix(s: string, p: string)
    requires EndsWith(s, p)
    ensures Contains(s, p)
    decreases |s|
  {
    if !StartsWith(s, p) {
      assert s != [];
      assert s[1..][|s[1..]| - |p|..] == s[|s| - |p|..];
      ContainsSuffix(s[1..], p);
    }
  }

  /**
   * The two new styles do not start with `comment` or `string` and do contain
   * `uso-variable`, so the completion helper does not hand such tokens to the
   * fallback at line 247 and routes them by the `uso-variable` test at line 303.
   */
  lemma MarkedStylesAreUsoVariables(style: string)
    requires style == UsoValidVar || style == UsoInvalidVar
    ensures !StartsWith(style, "comment") && !StartsWith(style, "string")
    ensures style != [] && Contains(style, UsoVar)
  {
    assert style[|style| - |UsoVar|..] == UsoVar;
    ContainsSuffix(style, UsoVar);
    assert style[0] == 'v' || style[0] == 'e';
  }

  /** `/*[[my-var]]*/` is marked and names `my-var`. */
  lemma MyVarMarked()
    ensures var s := Stream("/*[[my-var]]*/", 0, 14); IsMarked(s) && MarkedName(s) == "my-var"
  {
    var line := "/*[[my-var]]*/";
    assert line[2] == '[' && line[3] == '[' && line[10] == ']' && line[11] == ']';
    assert |line[4..10]| == 6 && forall i :: 0 <= i < 6 ==> line[4..10][i] == "my-var"[i];
  }

  /** `/*[[my-var-rgb]]*/` is marked and names `my-var-rgb`. */
  lemma MyVarRgbMarked()
    ensures var s := Stream("/*[[my-var-rgb]]*/", 0, 18); IsMarked(s) && MarkedName(s) == "my-var-rgb"
  {
    var line := "/*[[my-var-rgb]]*/";
    assert line[2] == '[' && line[3] == '[' && line[14] == ']' && line[15] == ']';
    assert line[4..14] == "my-var-rgb";
  }

  /** The three cases of the variable `/*[[my-var]]*/` against the declared names. */
  lemma MyVarExamples()
    ensures var s := Stream("/*[[my-var]]*/", 0, 14);
      ClassifiedToken(["comment", "comment"], s, Editor(Some(UsercssData(Some(["my-var"]))))) ==
        [UsoValidVar, "comment"] &&
      ClassifiedToken(["comment", "comment"], s, Editor(Some(UsercssData(Some(["my-var-rgb"]))))) ==
        [UsoInvalidVar, "comment"] &&
      ClassifiedToken(["comment", "comment"], s, NoEditor) == [UsoInvalidVar, "comment"]
  {
    MyVarMarked();
    assert "my-var"[2..] != "-rgb" by {
      assert "my-var"[2..][1] == 'v';
    }
    RgbSuffixOneWay("my-var");
  }

  /** And of `/*[[my-var-rgb]]*/`, which is looked up as `my-var`. */
  lemma MyVarRgbExamples()
    ensures var s := Stream("/*[[my-var-rgb]]*/", 0, 18);
      ClassifiedToken(["comment", "comment"], s, Editor(Some(UsercssData(Some(["my-var-rgb"]))))) ==
        [UsoInvalidVar, "comment"] &&
      ClassifiedToken(["comment", "comment"], s, Editor(Some(UsercssData(Some(["my-var"]))))) ==
        [UsoValidVar, "comment"]
  {
    MyVarRgbMarked();
    assert "my-var"[2..] != "-rgb" by {
      assert "my-var"[2..][1] == 'v';
    }
    RgbSuffixOneWay("my-var");
    assert "my-var" + "-rgb" == "my-var-rgb";
  }
}
