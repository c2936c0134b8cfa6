/**
 * The default key bindings the editor adds unless `extraKeys` already names the
 * command (edit/codemirror-default.js:44-79), and the move of the Ctrl-N/T/W hotkeys,
 * which Windows does not let a page intercept, to free Alt combinations
 * (edit/codemirror-default.js:81-104).
 */
module KeyMaps {
  import opened Wrappers

  /** A keymap value: a command name, or a falsy value such as `false` that disables the key. */
  datatype Binding = Command(name: string) | Disabled

  predicate Truthy(b: Binding) {
    b.Command? && b.name != ""
  }

  /** One keymap: key name to binding. */
  type KeyTable = map<string, Binding>

  // ---------------------------------------------------------------------------
  // The remap of one key in one keymap (lines 89-100)
  // ---------------------------------------------------------------------------

  /** `remap.to.some(newMod => !(newMod + char in keyMap))`: the first target key that is free. */
  function FirstAbsent(km: KeyTable, targets: seq<string>): (r: Option<string>)
    ensures r.None? <==> forall i :: 0 <= i < |targets| ==> targets[i] in km
    ensures r.Some? ==> r.value in targets && r.value !in km
    ensures r.Some? ==>
              exists i :: 0 <= i < |targets| && targets[i] == r.value && (forall j :: 0 <= j < i ==> targets[j] in km)
  {
    if targets == [] then None
    else if targets[0] !in km then Some(targets[0])
    else FirstAbsent(km, targets[1..])
  }

  /**
   * A truthy binding of `oldKey` moves to the first free key of `targets`; with no
   * free target, or no truthy binding, the keymap stays as it is.
   */
  function RemapKey(km: KeyTable, oldKey: string, targets: seq<string>): (r: KeyTable)
    requires oldKey !in targets
    ensures forall k :: k in km && k != oldKey ==> k in r && r[k] == km[k]
    ensures forall k :: k in r ==> k in km || k in targets
    ensures |r| == |km|
    ensures (forall i :: 0 <= i < |targets| ==> targets[i] in km) ==> r == km
    ensures r != km ==>
      oldKey in km && Truthy(km[oldKey]) && oldKey !in r &&
      FirstAbsent(km, targets).Some? && FirstAbsent(km, targets).value in r &&
      r[FirstAbsent(km, targets).value] == km[oldKey]
  {
    if oldKey !in km || !Truthy(km[oldKey]) then km
    else
      match FirstAbsent(km, targets)
      case None => km
      case Some(newKey) =>
        var rest := km - {oldKey};
        assert rest.Keys == km.Keys - {oldKey};
        assert (rest[newKey := km[oldKey]]).Keys == rest.Keys + {newKey};
        rest[newKey := km[oldKey]]
  }

  /**
   * Running a remap a second time changes nothing, so visiting one keymap object under
   * two names (`default` is the same object as `pcDefault`) has the effect of one visit.
   */
  lemma RemapKeyIdempotent(km: KeyTable, oldKey: string, targets: seq<string>)
    requires oldKey !in targets
    ensures RemapKey(RemapKey(km, oldKey, targets), oldKey, targets) == RemapKey(km, oldKey, targets)
  {
  }

  /** A remap keeps the set of bound values. */
  lemma RemapKeyKeepsValues(km: KeyTable, oldKey: string, targets: seq<string>)
    requires oldKey !in targets
    ensures RemapKey(km, oldKey, targets).Values == km.Values
  {
    var r := RemapKey(km, oldKey, targets);
    if r != km {
      var newKey := FirstAbsent(km, targets).value;
      assert r == (km - {oldKey})[newKey := km[oldKey]];
      forall v | v in km.Values ensures v in r.Values {
        var k :| k in km && km[k] == v;
        if k == oldKey { assert r[newKey] == v; } else { assert r[k] == v; }
      }
      forall v | v in r.Values ensures v in km.Values {
        var k :| k in r && r[k] == v;
        if k == newKey { assert km[oldKey] == v; } else { assert km[k] == v; }
      }
    }
  }

  // ---------------------------------------------------------------------------
  // The six remaps, in order
  // ---------------------------------------------------------------------------

  datatype Remap = Remap(from: string, to: seq<string>)

  /** Modifier order in CodeMirror is Shift, Ctrl, Alt. */
  function RemapsFor(c: string): seq<Remap> {
    [Remap("Ctrl-" + c, ["Alt-" + c, "Ctrl-Alt-" + c]),
     Remap("Shift-Ctrl-" + c, ["Ctrl-Alt-" + c, "Shift-Ctrl-Alt-" + c])]
  }

  const RemappedChars: seq<string> := ["N", "T", "W"]

  /** The remaps of every character of `chars`, character by character. */
  function RemapsOver(chars: seq<string>): seq<Remap> {
    if chars == [] then [] else RemapsOver(chars[..|chars| - 1]) + RemapsFor(chars[|chars| - 1])
  }

  predicate WellFormedRemaps(remaps: seq<Remap>) {
    forall i :: 0 <= i < |remaps| ==> remaps[i].from !in remaps[i].to
  }

  /** No remap moves a key onto itself: source and targets differ in length. */
  lemma RemapsForWellFormed(c: string)
    ensures WellFormedRemaps(RemapsFor(c))
  {
    assert |"Ctrl-" + c| == |c| + 5 && |"Shift-Ctrl-" + c| == |c| + 11;
    assert |"Alt-" + c| == |c| + 4 && |"Ctrl-Alt-" + c| == |c| + 9 && |"Shift-Ctrl-Alt-" + c| == |c| + 15;
  }

  lemma {:induction false} RemapsOverWellFormed(chars: seq<string>)
    ensures WellFormedRemaps(RemapsOver(chars))
  {
    if chars != [] {
      RemapsOverWellFormed(chars[..|chars| - 1]);
      RemapsForWellFormed(chars[|chars| - 1]);
      ApplyRemapsAppend(map[], RemapsOver(chars[..|chars| - 1]), RemapsFor(chars[|chars| - 1]));
    }
  }

  /** The remaps applied one after the other to one keymap. */
  function ApplyRemaps(km: KeyTable, remaps: seq<Remap>): (r: KeyTable)
    requires WellFormedRemaps(remaps)
    ensures |r| == |km|
  {
    if remaps == [] then km
    else
      var last := remaps[|remaps| - 1];
      RemapKey(ApplyRemaps(km, remaps[..|remaps| - 1]), last.from, last.to)
  }

  /** What one Windows keymap becomes. */
  function RemapAll(km: KeyTable): (r: KeyTable)
    ensures |r| == |km|
    ensures forall k :: k in km && !IsSource(k, RemapsOver(RemappedChars)) ==> k in r && r[k] == km[k]
    ensures forall k :: k in r && !IsTarget(k, RemapsOver(RemappedChars)) ==> k in km
  {
    RemapsOverWellFormed(RemappedChars);
    ApplyRemapsFrame(km, RemapsOver(RemappedChars));
    ApplyRemaps(km, RemapsOver(RemappedChars))
  }

  /** The keys the Windows remap may move away: `Ctrl-` and `Shift-Ctrl-` with N, T or W. */
  lemma RemappedSources(k: string)
    ensures IsSource(k, RemapsOver(RemappedChars)) <==>
      k in {"Ctrl-N", "Shift-Ctrl-N", "Ctrl-T", "Shift-Ctrl-T", "Ctrl-W", "Shift-Ctrl-W"}
  {
    var rs := RemapsOver(RemappedChars);
    assert RemappedChars[..2] == ["N", "T"] && ["N", "T"][..1] == ["N"] && ["N"][..0] == [];
    assert rs == RemapsFor("N") + RemapsFor("T") + RemapsFor("W");
    assert rs[0].from == "Ctrl-N" && rs[1].from == "Shift-Ctrl-N";
    assert rs[2].from == "Ctrl-T" && rs[3].from == "Shift-Ctrl-T";
    assert rs[4].from == "Ctrl-W" && rs[5].from == "Shift-Ctrl-W";
  }

  predicate IsSource(k: string, remaps: seq<Remap>) {
    exists i :: 0 <= i < |remaps| && remaps[i].from == k
  }

  predicate IsTarget(k: string, remaps: seq<Remap>) {
    exists i :: 0 <= i < |remaps| && k in remaps[i].to
  }

  /**
   * Across all remaps: the number of bindings stays, a key bound before that no remap
   * moves away keeps its binding (so no bound key is overwritten), and keys no remap
   * names neither appear nor disappear.
   */
  lemma {:induction false} ApplyRemapsFrame(km: KeyTable, remaps: seq<Remap>)
    requires WellFormedRemaps(remaps)
    ensures |ApplyRemaps(km, remaps)| == |km|
    ensures forall k :: k in km && !IsSource(k, remaps) ==>
      k in ApplyRemaps(km, remaps) && ApplyRemaps(km, remaps)[k] == km[k]
    ensures forall k :: k in ApplyRemaps(km, remaps) && !IsTarget(k, remaps) ==> k in km
  {
    if remaps != [] {
      var init := remaps[..|remaps| - 1];
      ApplyRemapsFrame(km, init);
      forall k | IsSource(k, init) ensures IsSource(k, remaps) {
        var i :| 0 <= i < |init| && init[i].from == k;
        assert remaps[i].from == k;
      }
      forall k | IsTarget(k, init) ensures IsTarget(k, remaps) {
        var i :| 0 <= i < |init| && k in init[i].to;
        assert k in remaps[i].to;
      }
      var last := remaps[|remaps| - 1];
      forall k | k in last.to ensures IsTarget(k, remaps) {
        assert k in remaps[|remaps| - 1].to;
      }
      assert IsSource(last.from, remaps) by {
        assert remaps[|remaps| - 1].from == last.from;
      }
    }
  }

  /** One more remap of a prefix. */
  lemma ApplyRemapsStep(km: KeyTable, remaps: seq<Remap>, i: nat)
    requires WellFormedRemaps(remaps) && i < |remaps|
    ensures WellFormedRemaps(remaps[..i]) && WellFormedRemaps(remaps[..i + 1])
    ensures ApplyRemaps(km, remaps[..i + 1]) == RemapKey(ApplyRemaps(km, remaps[..i]), remaps[i].from, remaps[i].to)
  {
    assert remaps[..i + 1][..i] == remaps[..i];
  }

  /** Applying `x` and then `y` is applying `x + y`. */
  lemma {:induction false} ApplyRemapsAppend(km: KeyTable, x: seq<Remap>, y: seq<Remap>)
    requires WellFormedRemaps(x) && WellFormedRemaps(y)
    ensures WellFormedRemaps(x + y)
    ensures ApplyRemaps(km, x + y) == ApplyRemaps(ApplyRemaps(km, x), y)
  {
    assert forall i :: 0 <= i < |x + y| ==> (x + y)[i] == if i < |x| then x[i] else y[i - |x|];
    if y == [] {
      assert x + y == x;
    } else {
      var y' := y[..|y| - 1];
      assert (x + y)[..|x + y| - 1] == x + y';
      ApplyRemapsAppend(km, x, y');
    }
  }

  /** A keymap in which every target key is already bound comes through unchanged. */
  lemma {:induction false} ApplyRemapsFull(km: KeyTable, remaps: seq<Remap>)
    requires WellFormedRemaps(remaps)
    requires forall i, j :: 0 <= i < |remaps| && 0 <= j < |remaps[i].to| ==> remaps[i].to[j] in km
    ensures ApplyRemaps(km, remaps) == km
  {
    if remaps != [] {
      ApplyRemapsFull(km, remaps[..|remaps| - 1]);
      var last := remaps[|remaps| - 1];
      assert forall j :: 0 <= j < |last.to| ==> last.to[j] in km;
    }
  }

  /** A truthy binding whose first free target is `newKey` moves there and nowhere else. */
  lemma RemapKeyMoves(km: KeyTable, oldKey: string, targets: seq<string>, newKey: string)
    requires oldKey !in targets && oldKey in km && Truthy(km[oldKey])
    requires FirstAbsent(km, targets) == Some(newKey)
    ensures var r := RemapKey(km, oldKey, targets);
      oldKey !in r && newKey in r && r[newKey] == km[oldKey] &&
      forall k :: k in r ==> k == newKey || k in km
  {
  }

  lemma FirstAbsentSecond(km: KeyTable, a: string, b: string)
    requires a in km && b !in km
    ensures FirstAbsent(km, [a, b]) == Some(b)
  {
    assert [a, b][1..] == [b];
  }

  lemma ApplyTwoRemaps(km: KeyTable, x: Remap, y: Remap)
    requires WellFormedRemaps([x, y])
    ensures x.from !in x.to && y.from !in y.to
    ensures ApplyRemaps(km, [x, y]) == RemapKey(RemapKey(km, x.from, x.to), y.from, y.to)
  {
    assert [x, y][0] == x && [x, y][1] == y;
    assert [x, y][..1] == [x] && [x][..0] == [];
    assert WellFormedRemaps([x]);
    assert ApplyRemaps(km, [x]) == RemapKey(km, x.from, x.to);
  }

  /**
   * The two remaps of one character share the target `Ctrl-Alt-`: when `Alt-` is
   * taken, the `Ctrl-` binding claims it first and the `Shift-Ctrl-` binding moves on
   * to its second target.
   */
  lemma SharedTargetGoesFirst(km: KeyTable, ctrl: string, alt: string, ctrlAlt: string,
                              shiftCtrl: string, shiftCtrlAlt: string)
    requires ctrl != ctrlAlt && ctrl != shiftCtrl && ctrl != shiftCtrlAlt && ctrl != alt
    requires shiftCtrl != ctrlAlt && shiftCtrl != shiftCtrlAlt && ctrlAlt != shiftCtrlAlt
    requires ctrl in km && Truthy(km[ctrl]) && alt in km && ctrlAlt !in km
    requires shiftCtrl in km && Truthy(km[shiftCtrl]) && shiftCtrlAlt !in km
    ensures WellFormedRemaps([Remap(ctrl, [alt, ctrlAlt]), Remap(shiftCtrl, [ctrlAlt, shiftCtrlAlt])])
    ensures var r := ApplyRemaps(km, [Remap(ctrl, [alt, ctrlAlt]), Remap(shiftCtrl, [ctrlAlt, shiftCtrlAlt])]);
      ctrl !in r && shiftCtrl !in r &&
      ctrlAlt in r && r[ctrlAlt] == km[ctrl] && shiftCtrlAlt in r && r[shiftCtrlAlt] == km[shiftCtrl]
  {
    var x, y := Remap(ctrl, [alt, ctrlAlt]), Remap(shiftCtrl, [ctrlAlt, shiftCtrlAlt]);
    assert WellFormedRemaps([x, y]) by {
      assert [x, y][0] == x && [x, y][1] == y;
    }
    ApplyTwoRemaps(km, x, y);
    FirstAbsentSecond(km, alt, ctrlAlt);
    RemapKeyMoves(km, ctrl, [alt, ctrlAlt], ctrlAlt);
    var k1 := RemapKey(km, ctrl, [alt, ctrlAlt]);
    assert shiftCtrlAlt !in k1;
    FirstAbsentSecond(k1, ctrlAlt, shiftCtrlAlt);
    RemapKeyMoves(k1, shiftCtrl, [ctrlAlt, shiftCtrlAlt], shiftCtrlAlt);
  }

  /** The order of the two remaps of a character (lines 82-86), for every character. */
  lemma ShiftCtrlYieldsToCtrl(km: KeyTable, c: string)
    requires "Ctrl-" + c in km && Truthy(km["Ctrl-" + c]) && "Alt-" + c in km && "Ctrl-Alt-" + c !in km
    requires "Shift-Ctrl-" + c in km && Truthy(km["Shift-Ctrl-" + c]) && "Shift-Ctrl-Alt-" + c !in km
    ensures WellFormedRemaps(RemapsFor(c))
    ensures var r := ApplyRemaps(km, RemapsFor(c));
      "Ctrl-" + c !in r && "Shift-Ctrl-" + c !in r &&
      "Ctrl-Alt-" + c in r && r["Ctrl-Alt-" + c] == km["Ctrl-" + c] &&
      "Shift-Ctrl-Alt-" + c in r && r["Shift-Ctrl-Alt-" + c] == km["Shift-Ctrl-" + c]
  {
    var ctrl, alt, ctrlAlt, shiftCtrl, shiftCtrlAlt :=
      "Ctrl-" + c, "Alt-" + c, "Ctrl-Alt-" + c, "Shift-Ctrl-" + c, "Shift-Ctrl-Alt-" + c;
    assert |alt| == |c| + 4 && |ctrl| == |c| + 5 && |ctrlAlt| == |c| + 9;
    assert |shiftCtrl| == |c| + 11 && |shiftCtrlAlt| == |c| + 15;
    SharedTargetGoesFirst(km, ctrl, alt, ctrlAlt, shiftCtrl, shiftCtrlAlt);
  }

  // ---------------------------------------------------------------------------
  // The default bindings gated by `extraKeys` (lines 44-79)
  // ---------------------------------------------------------------------------

  /** The command names among the values of `extraKeys` (`extraKeysCommands`). */
  function ExtraKeysCommands(extraKeys: map<string, Binding>): (r: set<string>)
    ensures forall c :: c in r <==> exists k :: k in extraKeys && extraKeys[k] == Command(c)
  {
    set k | k in extraKeys && extraKeys[k].Command? :: extraKeys[k].name
  }

  /** `CodeMirror.keyMap[keyMap][key] = command`. */
  datatype Assignment = Assignment(keyMap: string, key: string, command: string)

  function JumpToLineBindings(commands: set<string>): seq<Assignment> {
    if "jumpToLine" in commands then []
    else [Assignment("sublime", "Ctrl-G", "jumpToLine"), Assignment("emacsy", "Ctrl-G", "jumpToLine"),
          Assignment("pcDefault", "Ctrl-J", "jumpToLine"), Assignment("macDefault", "Cmd-J", "jumpToLine")]
  }

  function AutocompleteBindings(commands: set<string>): seq<Assignment> {
    if "autocomplete" in commands then []
    else [Assignment("pcDefault", "Ctrl-Space", "autocomplete"), Assignment("macDefault", "Alt-Space", "autocomplete"),
          Assignment("emacsy", "Alt-/", "autocomplete")]
  }

  function CommentBindings(commands: set<string>): seq<Assignment> {
    if "blockComment" in commands then [] else [Assignment("sublime", "Shift-Ctrl-/", "commentSelection")]
  }

  /** The assignment, unless its command is among the `extraKeys` values. */
  function Unless(commands: set<string>, a: Assignment): seq<Assignment> {
    if a.command in commands then [] else [a]
  }

  function WindowsBindings(commands: set<string>): seq<Assignment> {
    Unless(commands, Assignment("pcDefault", "F3", "findNext")) +
    Unless(commands, Assignment("pcDefault", "Shift-F3", "findPrev")) +
    Unless(commands, Assignment("pcDefault", "Ctrl-R", "replace"))
  }

  /** Every assignment made, in order. */
  function DefaultBindings(commands: set<string>, windows: bool): (r: seq<Assignment>)
    ensures |r| <= if windows then 11 else 8
    ensures commands == {} ==> |r| == if windows then 11 else 8
  {
    JumpToLineBindings(commands) + AutocompleteBindings(commands) + CommentBindings(commands) +
    (if windows then WindowsBindings(commands) else [])
  }

  /** The `extraKeys` command that keeps a default binding from being added. */
  function Gate(command: string): string {
    if command == "commentSelection" then "blockComment" else command
  }

  const DefaultKeyMaps: set<string> := {"sublime", "emacsy", "pcDefault", "macDefault"}

  /**
   * A default binding is added only when no `extraKeys` value names its command
   * (`blockComment` for `commentSelection`), only to the four default keymaps, and
   * `F3`, `Shift-F3` and `Ctrl-R` only on Windows.
   */
  lemma DefaultBindingsGated(commands: set<string>, windows: bool, a: Assignment)
    requires a in DefaultBindings(commands, windows)
    ensures Gate(a.command) !in commands
    ensures a.keyMap in DefaultKeyMaps
    ensures a.command in {"findNext", "findPrev", "replace"} ==> windows && a.keyMap == "pcDefault"
  {
    var j := JumpToLineBindings(commands);
    var ac := AutocompleteBindings(commands);
    var cm := CommentBindings(commands);
    var w := if windows then WindowsBindings(commands) else [];
    assert DefaultBindings(commands, windows) == j + ac + cm + w;
    if a in j {
      assert a.command == "jumpToLine";
    } else if a in ac {
      assert a.command == "autocomplete";
    } else if a in cm {
      assert a.command == "commentSelection";
    } else {
      assert a in w && windows;
      assert a.keyMap == "pcDefault";
    }
  }

  /** An assignment is made exactly when one of the four groups makes it. */
  lemma InDefaultBindings(commands: set<string>, windows: bool, a: Assignment)
    ensures a in DefaultBindings(commands, windows) <==>
      a in JumpToLineBindings(commands) || a in AutocompleteBindings(commands) ||
      a in CommentBindings(commands) || (windows && a in WindowsBindings(commands))
  {
    var j := JumpToLineBindings(commands);
    var ac := AutocompleteBindings(commands);
    var cm := CommentBindings(commands);
    var w := if windows then WindowsBindings(commands) else [];
    assert DefaultBindings(commands, windows) == j + ac + cm + w;
  }

  /** Conversely, each binding is added whenever its command is not among the values. */
  lemma DefaultBindingsOffered(commands: set<string>, windows: bool)
    ensures "jumpToLine" !in commands <==>
      Assignment("pcDefault", "Ctrl-J", "jumpToLine") in DefaultBindings(commands, windows)
    ensures "autocomplete" !in commands <==>
      Assignment("pcDefault", "Ctrl-Space", "autocomplete") in DefaultBindings(commands, windows)
    ensures "blockComment" !in commands <==>
      Assignment("sublime", "Shift-Ctrl-/", "commentSelection") in DefaultBindings(commands, windows)
    ensures windows && "replace" !in commands <==>
      Assignment("pcDefault", "Ctrl-R", "replace") in DefaultBindings(commands, windows)
  {
    var jump := Assignment("pcDefault", "Ctrl-J", "jumpToLine");
    var auto := Assignment("pcDefault", "Ctrl-Space", "autocomplete");
    var comment := Assignment("sublime", "Shift-Ctrl-/", "commentSelection");
    var replace := Assignment("pcDefault", "Ctrl-R", "replace");
    InDefaultBindings(commands, windows, jump);
    InDefaultBindings(commands, windows, auto);
    InDefaultBindings(commands, windows, comment);
    InDefaultBindings(commands, windows, replace);
    if jump in DefaultBindings(commands, windows) { DefaultBindingsGated(commands, windows, jump); }
    if auto in DefaultBindings(commands, windows) { DefaultBindingsGated(commands, windows, auto); }
    if comment in DefaultBindings(commands, windows) { DefaultBindingsGated(commands, windows, comment); }
    if replace in DefaultBindings(commands, windows) { DefaultBindingsGated(commands, windows, replace); }
  }

  /** The same for the two search keys, which are offered only on Windows (lines 70-75). */
  lemma FindBindingsOffered(commands: set<string>, windows: bool)
    ensures windows && "findNext" !in commands <==>
      Assignment("pcDefault", "F3", "findNext") in DefaultBindings(commands, windows)
    ensures windows && "findPrev" !in commands <==>
      Assignment("pcDefault", "Shift-F3", "findPrev") in DefaultBindings(commands, windows)
  {
    var next := Assignment("pcDefault", "F3", "findNext");
    var prev := Assignment("pcDefault", "Shift-F3", "findPrev");
    InDefaultBindings(commands, windows, next);
    InDefaultBindings(commands, windows, prev);
    if next in DefaultBindings(commands, windows) { DefaultBindingsGated(commands, windows, next); }
    if prev in DefaultBindings(commands, windows) { DefaultBindingsGated(commands, windows, prev); }
  }

  predicate OnDefaultKeyMaps(g: seq<Assignment>) {
    forall i :: 0 <= i < |g| ==> g[i].keyMap in DefaultKeyMaps
  }

  lemma GroupsTargetDefaultKeyMaps(commands: set<string>, windows: bool)
    ensures OnDefaultKeyMaps(JumpToLineBindings(commands)) && OnDefaultKeyMaps(AutocompleteBindings(commands))
    ensures OnDefaultKeyMaps(CommentBindings(commands)) && OnDefaultKeyMaps(WindowsBindings(commands))
    ensures OnDefaultKeyMaps(DefaultBindings(commands, windows))
  {
    var d := DefaultBindings(commands, windows);
    forall i | 0 <= i < |d| ensures d[i].keyMap in DefaultKeyMaps {
      DefaultBindingsGated(commands, windows, d[i]);
    }
  }

  /** The assignments made one after the other. */
  function Assign(tables: map<string, KeyTable>, assignments: seq<Assignment>): (r: map<string, KeyTable>)
    requires forall i :: 0 <= i < |assignments| ==> assignments[i].keyMap in tables
    ensures r.Keys == tables.Keys
  {
    if assignments == [] then tables
    else
      var a := assignments[|assignments| - 1];
      var t := Assign(tables, assignments[..|assignments| - 1]);
      t[a.keyMap := t[a.keyMap][a.key := Command(a.command)]]
  }

  /** Making `x` and then `y` is making `x + y`. */
  lemma {:induction false} AssignAppend(tables: map<string, KeyTable>, x: seq<Assignment>, y: seq<Assignment>)
    requires forall i :: 0 <= i < |x| ==> x[i].keyMap in tables
    requires forall i :: 0 <= i < |y| ==> y[i].keyMap in tables
    ensures forall i :: 0 <= i < |x + y| ==> (x + y)[i].keyMap in tables
    ensures Assign(Assign(tables, x), y) == Assign(tables, x + y)
  {
    if y != [] {
      var y' := y[..|y| - 1];
      var a := y[|y| - 1];
      assert (x + y)[..|x + y| - 1] == x + y';
      assert (x + y)[|x + y| - 1] == a;
      AssignAppend(tables, x, y');
      var t := Assign(tables, x + y');
      assert Assign(tables, x + y) == t[a.keyMap := t[a.keyMap][a.key := Command(a.command)]];
    } else {
      assert x + y == x;
    }
  }

  /** Three runs of assignments made one after the other. */
  lemma AssignThreeParts(t: map<string, KeyTable>, x: seq<Assignment>, y: seq<Assignment>, z: seq<Assignment>)
    requires forall i :: 0 <= i < |x| ==> x[i].keyMap in t
    requires forall i :: 0 <= i < |y| ==> y[i].keyMap in t
    requires forall i :: 0 <= i < |z| ==> z[i].keyMap in t
    ensures forall i :: 0 <= i < |x + y + z| ==> (x + y + z)[i].keyMap in t
    ensures Assign(t, x + y + z) == Assign(Assign(Assign(t, x), y), z)
  {
    AssignAppend(t, x, y);
    AssignAppend(t, x + y, z);
  }

  /** Three assignments made one by one. */
  lemma AssignThree(t: map<string, KeyTable>, a1: Assignment, a2: Assignment, a3: Assignment)
    requires a1.keyMap in t && a2.keyMap in t && a3.keyMap in t
    ensures Assign(t, [a1, a2, a3]) == Assign(Assign(Assign(t, [a1]), [a2]), [a3])
  {
    AssignAppend(t, [a1], [a2]);
    assert [a1] + [a2] == [a1, a2];
    AssignAppend(t, [a1, a2], [a3]);
    assert [a1, a2] + [a3] == [a1, a2, a3];
  }

  /** Four assignments made one by one. */
  lemma AssignFour(t: map<string, KeyTable>, a1: Assignment, a2: Assignment, a3: Assignment, a4: Assignment)
    requires a1.keyMap in t && a2.keyMap in t && a3.keyMap in t && a4.keyMap in t
    ensures Assign(t, [a1, a2, a3, a4]) == Assign(Assign(Assign(Assign(t, [a1]), [a2]), [a3]), [a4])
  {
    AssignThree(t, a1, a2, a3);
    AssignAppend(t, [a1, a2, a3], [a4]);
    assert [a1, a2, a3] + [a4] == [a1, a2, a3, a4];
  }

  /** Lines 94-100 for one keymap: `if (!command) return;` and the `some` over the targets. */
  method RemapKeyMap(keyMap: KeyTable, oldKey: string, targets: seq<string>) returns (r: KeyTable)
    requires oldKey !in targets
    ensures r == RemapKey(keyMap, oldKey, targets)
  {
    r := keyMap;
    if oldKey !in keyMap || !Truthy(keyMap[oldKey]) {
      return;
    }
    var command := keyMap[oldKey];
    var t := 0;
    while t < |targets|
      invariant 0 <= t <= |targets|
      invariant forall j :: 0 <= j < t ==> targets[j] in keyMap
      invariant FirstAbsent(keyMap, targets) == FirstAbsent(keyMap, targets[t..])
    {
      var newKey := targets[t];
      if newKey !in keyMap {
        r := (keyMap - {oldKey})[newKey := command];
        return;
      }
      assert targets[t..][1..] == targets[t + 1..];
      t := t + 1;
    }
  }

  predicate Distinct(names: seq<string>) {
    forall i, j :: 0 <= i < j < |names| ==> names[i] != names[j]
  }

  /**
   * Lines 88-100 over `Object.keys(CodeMirror.keyMap)`: each keymap in turn gets the
   * remap, and each exactly once.
   */
  method RemapTables(names: seq<string>, tables: map<string, KeyTable>, oldKey: string, targets: seq<string>)
    returns (t: map<string, KeyTable>)
    requires Distinct(names) && (forall n :: n in tables <==> n in names) && oldKey !in targets
    ensures t.Keys == tables.Keys
    ensures forall n :: n in t ==> t[n] == RemapKey(tables[n], oldKey, targets)
  {
    t := tables;
    var i := 0;
    while i < |names|
      invariant 0 <= i <= |names| && t.Keys == tables.Keys
      invariant forall n :: n in t ==>
        t[n] == if n in names[..i] then RemapKey(tables[n], oldKey, targets) else tables[n]
    {
      assert names[..i + 1] == names[..i] + [names[i]];
      assert names[i] !in names[..i] by {
        assert forall k :: 0 <= k < i ==> names[k] != names[i];
      }
      var keyMap := RemapKeyMap(t[names[i]], oldKey, targets);
      t := t[names[i] := keyMap];
      i := i + 1;
    }
    assert names[..i] == names;
  }

  // ---------------------------------------------------------------------------
  // `CodeMirror.keyMap`, updated in place
  // ---------------------------------------------------------------------------

  class KeyMapRegistry {
    /** `Object.keys(CodeMirror.keyMap)`. */
    var names: seq<string>
    var tables: map<string, KeyTable>

    ghost predicate Valid()
      reads this
    {
      (forall n :: n in tables <==> n in names) && Distinct(names)
    }

    constructor (names: seq<string>, tables: map<string, KeyTable>)
      requires forall n :: n in tables <==> n in names
      requires Distinct(names)
      ensures Valid() && this.names == names && this.tables == tables
    {
      this.names := names;
      this.tables := tables;
    }

    /** `CodeMirror.keyMap[a.keyMap][a.key] = a.command`. */
    method Bind(a: Assignment)
      requires Valid() && a.keyMap in tables
      modifies this
      ensures Valid() && names == old(names) && tables.Keys == old(tables).Keys
      ensures tables == Assign(old(tables), [a])
    {
      tables := tables[a.keyMap := tables[a.keyMap][a.key := Command(a.command)]];
      assert [a][..0] == [];
    }

    /** Lines 49-54. */
    method AddJumpToLine(commands: set<string>)
      requires Valid() && DefaultKeyMaps <= tables.Keys
      modifies this
      ensures Valid() && names == old(names)
      ensures tables == Assign(old(tables), JumpToLineBindings(commands))
    {
      if "jumpToLine" !in commands {
        ghost var t0 := tables;
        var a1 := Assignment("sublime", "Ctrl-G", "jumpToLine");
        var a2 := Assignment("emacsy", "Ctrl-G", "jumpToLine");
        var a3 := Assignment("pcDefault", "Ctrl-J", "jumpToLine");
        var a4 := Assignment("macDefault", "Cmd-J", "jumpToLine");
        AssignFour(t0, a1, a2, a3, a4);
        Bind(a1);
        Bind(a2);
        Bind(a3);
        Bind(a4);
      }
    }

    /** Lines 55-63. */
    method AddAutocomplete(commands: set<string>)
      requires Valid() && DefaultKeyMaps <= tables.Keys
      modifies this
      ensures Valid() && names == old(names)
      ensures tables == Assign(old(tables), AutocompleteBindings(commands))
    {
      if "autocomplete" !in commands {
        ghost var t0 := tables;
        var a1 := Assignment("pcDefault", "Ctrl-Space", "autocomplete");
        var a2 := Assignment("macDefault", "Alt-Space", "autocomplete");
        var a3 := Assignment("emacsy", "Alt-/", "autocomplete");
        AssignThree(t0, a1, a2, a3);
        Bind(a1);
        Bind(a2);
        Bind(a3);
      }
    }

    /** Lines 64-66. */
    method AddCommentSelection(commands: set<string>)
      requires Valid() && DefaultKeyMaps <= tables.Keys
      modifies this
      ensures Valid() && names == old(names)
      ensures tables == Assign(old(tables), CommentBindings(commands))
    {
      if "blockComment" !in commands {
        Bind(Assignment("sublime", "Shift-Ctrl-/", "commentSelection"));
      }
    }

    /** Lines 70-78. */
    method AddWindowsFind(commands: set<string>)
      requires Valid() && DefaultKeyMaps <= tables.Keys
      modifies this
      ensures Valid() && names == old(names)
      ensures tables == Assign(old(tables), WindowsBindings(commands))
    {
      ghost var t0 := tables;
      var next := Assignment("pcDefault", "F3", "findNext");
      var prev := Assignment("pcDefault", "Shift-F3", "findPrev");
      var repl := Assignment("pcDefault", "Ctrl-R", "replace");
      ghost var u1, u2, u3 := Unless(commands, next), Unless(commands, prev), Unless(commands, repl);
      AssignThreeParts(t0, u1, u2, u3);
      BindUnlessOffered(commands, next);
      BindUnlessOffered(commands, prev);
      BindUnlessOffered(commands, repl);
      assert WindowsBindings(commands) == u1 + u2 + u3;
    }

    /** `if (!extraKeysCommands[command]) keyMap[key] = command`. */
    method BindUnlessOffered(commands: set<string>, a: Assignment)
      requires Valid() && a.keyMap in tables
      modifies this
      ensures Valid() && names == old(names) && tables.Keys == old(tables).Keys
      ensures tables == Assign(old(tables), Unless(commands, a))
    {
      if a.command !in commands {
        Bind(a);
      }
    }

    /** Lines 44-78, up to the remap: the default bindings `extraKeys` does not already provide. */
    method AddDefaultBindings(extraKeys: map<string, Binding>, windows: bool)
      requires Valid() && DefaultKeyMaps <= tables.Keys
      modifies this
      ensures Valid() && names == old(names)
      ensures var d := DefaultBindings(ExtraKeysCommands(extraKeys), windows);
        (forall i :: 0 <= i < |d| ==> d[i].keyMap in old(tables)) &&
        tables == Assign(old(tables), d)
    {
      var commands := ExtraKeysCommands(extraKeys);
      ghost var t0 := tables;
      GroupsTargetDefaultKeyMaps(commands, windows);
      ghost var j := JumpToLineBindings(commands);
      ghost var ac := AutocompleteBindings(commands);
      ghost var cm := CommentBindings(commands);
      ghost var w := if windows then WindowsBindings(commands) else [];
      AddJumpToLine(commands);
      AddAutocomplete(commands);
      AssignAppend(t0, j, ac);
      AddCommentSelection(commands);
      AssignAppend(t0, j + ac, cm);
      if windows {
        AddWindowsFind(commands);
      }
      AssignAppend(t0, j + ac + cm, w);
      assert DefaultBindings(commands, windows) == j + ac + cm + w;
    }

    /** Lines 93-100 for one remap: every keymap, in `Object.keys` order. */
    method RemapEveryKeyMap(oldKey: string, targets: seq<string>)
      requires Valid() && oldKey !in targets
      modifies this
      ensures Valid() && names == old(names) && tables.Keys == old(tables).Keys
      ensures forall n :: n in tables ==> tables[n] == RemapKey(old(tables)[n], oldKey, targets)
    {
      tables := RemapTables(names, tables, oldKey, targets);
    }

    /** Lines 82-101 for one character: its two remaps, in order. */
    method RemapCharacter(c: string)
      requires Valid()
      modifies this
      ensures Valid() && names == old(names) && tables.Keys == old(tables).Keys
      ensures WellFormedRemaps(RemapsFor(c))
      ensures forall n :: n in tables ==> tables[n] == ApplyRemaps(old(tables)[n], RemapsFor(c))
    {
      var remaps := RemapsFor(c);
      RemapsForWellFormed(c);
      var ri := 0;
      while ri < |remaps|
        invariant 0 <= ri <= |remaps| && Valid() && names == old(names)
        invariant tables.Keys == old(tables).Keys
        invariant forall n :: n in tables ==> tables[n] == ApplyRemaps(old(tables)[n], remaps[..ri])
      {
        RemapEveryKeyMap(remaps[ri].from, remaps[ri].to);
        forall n | n in tables
          ensures tables[n] == ApplyRemaps(old(tables)[n], remaps[..ri + 1])
        {
          ApplyRemapsStep(old(tables)[n], remaps, ri);
        }
        ri := ri + 1;
      }
      assert remaps[..ri] == remaps;
    }

    /** Lines 80-103: the characters N, T and W, in order. */
    method RemapHotkeys()
      requires Valid()
      modifies this
      ensures Valid() && names == old(names) && tables.Keys == old(tables).Keys
      ensures forall n :: n in tables ==> tables[n] == RemapAll(old(tables)[n])
    {
      var chars := RemappedChars;
      var ci := 0;
      while ci < |chars|
        invariant 0 <= ci <= |chars| && Valid() && names == old(names)
        invariant tables.Keys == old(tables).Keys
        invariant WellFormedRemaps(RemapsOver(chars[..ci]))
        invariant forall n :: n in tables ==> tables[n] == ApplyRemaps(old(tables)[n], RemapsOver(chars[..ci]))
      {
        RemapCharacter(chars[ci]);
        assert chars[..ci + 1][..ci] == chars[..ci];
        RemapsOverWellFormed(chars[..ci + 1]);
        forall n | n in tables
          ensures tables[n] == ApplyRemaps(old(tables)[n], RemapsOver(chars[..ci + 1]))
        {
          ApplyRemapsAppend(old(tables)[n], RemapsOver(chars[..ci]), RemapsFor(chars[ci]));
        }
        ci := ci + 1;
      }
      assert chars[..ci] == RemappedChars;
    }

    /**
     * Lines 44-105: the default bindings `extraKeys` does not provide, then, only on
     * Windows, the hotkey remap over every keymap.
     */
    method Configure(extraKeys: map<string, Binding>, windows: bool)
      requires Valid() && DefaultKeyMaps <= tables.Keys
      modifies this
      ensures Valid() && names == old(names) && tables.Keys == old(tables).Keys
      ensures var d := DefaultBindings(ExtraKeysCommands(extraKeys), windows);
        (forall i :: 0 <= i < |d| ==> d[i].keyMap in old(tables)) &&
        forall n :: n in tables ==>
          tables[n] == if windows then RemapAll(Assign(old(tables), d)[n]) else Assign(old(tables), d)[n]
    {
      AddDefaultBindings(extraKeys, windows);
      if windows {
        RemapHotkeys();
      }
    }
  }
}
